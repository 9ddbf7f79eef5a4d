# Exchange simulator: model and proofs

A Dafny model of a limit-order exchange server and of the properties that make it one: an order book
with price-time matching, the engine that numbers and routes requests, the lock-free ring between
the network and the matching thread, stream framing and wire decoding, the published market state
and the session registry.

`dafny verify dfyconfig.toml` checks everything.

## How it is built

- `PriceTime` is the book as one flat price-time queue per side. `Walk` is a single greedy pass over
  the passive queue; `Add`, `CancelOrder`, `ModifyOrder` and `Apply` are the requests. Each resting order carries its
  live quantity, the recorded quantity (which fills do not reduce) and, as a history variable, the time it last
  joined the back of a level. Each side carries `drift`, the amount by which a level's cached total
  has moved away from the quantities queued there.
- `OrderBooks` is the book on the heap: `BookElement` and `PriceLevel` objects, two ladders of levels, the id index and
  the details index. A ghost field holds the flat view; `Valid()` ties levels, lists, cached totals and both
  indexes to it. Every method, the nested matching loops included, is proved to take the flat step.
- `Rules` says what each request does and answers in terms of the resting orders alone: prices, quantities, owners and
  every field of every output, with comparisons spelled out instead of the tests the operations branch on.
- `BookInvariant`, `Matching`, `Uncrossed`, `Drift`, `Priority` and `Replay` prove what one request does for
  every book; `EngineSpec` and `EngineRuns` lift this to every run over all books.
- `MatchingEngines` is the engine object, `Publishing` the market table and the matching thread.
- `Spsc` is the ring buffer as a two-process step system over all interleavings, plus the ring object.
- `Wire` and `Framing` are the packed messages and the framing loop; `Pipeline` composes bytes, framing, ring and
  matching thread; `Sessions` is the registry; `Delivery` follows confirmations from the engine to sessions that
  come and go meanwhile.
- `Witnesses` holds concrete runs on which a plausible property fails.

## Where the code differs from what one would expect

The model follows the code. Each point below has an exact condition or a law.

- A level's cached total misses the last fill of an order that is filled away (its quantity is zeroed before it is
  removed) and never hears of an in-place modify. `EngineRuns.TotalLaw` says what the total is on every run and
  exactly when it is right; `Witnesses.ReportedQuantityDrifts` shows a level of 5 reported as 15.
- A modify re-queues without matching, so it can cross the book. `EngineRuns.RunApartIff` gives the exact
  condition; `Witnesses.ModifyCrosses` is an instance. The header comment "cancel + re-insert"
  (matching/include/order_book.hpp:23) does not mention the in-place branch.
- The in-place test compares with the recorded quantity, not the live one, so a partly filled order can grow and
  keep its place (`Witnesses.GrowingModifyKeepsPlace`); `Priority.ModifyPlace` is the exact condition for keeping it.
- A frame header with length 0 makes the framing loop push an empty envelope in every round and consume nothing
  (`Framing.ZeroHeaderFloods`), so the thread that serves all sessions floods the ring and never returns.
  `Framing.TerminatesIff` is the exact condition on the headers, `Framing.PushedIff` says what can have been pushed
  at any moment, and `Pipeline.WireToEngine` that the flood changes no trader's requests.
- A second login followed by the end of the first session leaves a live trader without a route
  (`Sessions.DoubleLoginLosesRoute`), whose confirmations are then dropped; `Sessions.RemoveReachableIff` and
  `Sessions.RunReachableIff` give the exact condition; `Delivery.ToldIff` says who is told on runs without it.
- A confirmation's connection is looked up and then used (src/thread_matching.cpp:89-95). If it is closed and reused
  in between, the wrong trader gets the confirmation (`Delivery.ReusedConnection`); `Delivery.DeliveredIff` is the
  exact condition.
- The traded-volume counter counts every match twice, once per side (`Publishing.VolumeIsTwiceMatched`).
- `size`, `empty` and `full` load head and tail separately. `full` can say yes of a ring that never held more than
  one item (`Spsc.FullOfEmpty`) and `empty` of one that was never empty (`Spsc.EmptyOfBusy`). `Spsc.Sizes`,
  `Spsc.SizesTailFirst`, `Spsc.AnswersHeadFirst` and `Spsc.AnswerTailFirst` say exactly when the answers are right.
- A "full" or "empty" verdict of the ring is exact for a fresh load and otherwise speaks of the value loaded
  (`Spsc.FullVerdictAtLoad`, `Spsc.EmptyVerdictAtLoad`).
- core/include/types.hpp:8 announces 64-bit fixed-point prices; the type is a 32-bit unsigned integer, and so it is here.

## Model

| member | source | states |
|---|---|---|
| OrderBooks.PriceLevel.AddOrder | core/include/price_level.hpp:17-20 | the order joins the back; the total grows by its quantity in 32 bits |
| OrderBooks.PriceLevel.RemoveOrder | core/include/price_level.hpp:23-29 | the first occurrence leaves and the total drops by its current quantity; an absent order changes nothing |
| OrderBooks.PriceLevel.ReduceQty | core/include/price_level.hpp:32-34 | the total drops by the amount in 32 bits, the list stays |
| OrderBooks.OrderBook.GetOrCreateLevel | matching/src/order_book.cpp:8-16 | returns the level of the price, creating an empty one with total 0, and disturbs no other level |
| OrderBooks.OrderBook.RemoveFromLevel | matching/src/order_book.cpp:18-26 | the ladder becomes that of the queue without the order, an emptied level going with it; a price without a level or an element not queued there changes nothing |
| OrderBooks.OrderBook.InsertIntoLevel | matching/src/order_book.cpp:28-32 | the ladder becomes that of the queue with the order behind all orders at least as good |
| OrderBooks.OrderBook.HitFront | matching/src/order_book.cpp:55-104 | one inner iteration emits the next event of the flat pass and either removes a passive order or lowers the remaining quantity |
| OrderBooks.OrderBook.MatchAgainst | matching/src/order_book.cpp:34-110 | the nested loops end and yield the remaining quantity, passive side, confirmations and updates of one greedy pass over the flat queue |
| OrderBooks.OrderBook.AddOrder | matching/src/order_book.cpp:114-144 | a new order takes the flat step, outputs included, and keeps levels and both indexes in agreement, for every order on which that is possible |
| OrderBooks.OrderBook.CancelOrder | matching/src/order_book.cpp:146-187 | a cancel takes the flat step, with a reject for an unknown order or a foreign trader |
| OrderBooks.OrderBook.ModifyInPlace | matching/src/order_book.cpp:213-217 | element and recorded quantity are rewritten where they stand; the level total is not, which is drift |
| OrderBooks.OrderBook.Requeue | matching/src/order_book.cpp:218-236 | the order leaves its level and joins the back of the new one, unmatched |
| OrderBooks.OrderBook.ModifyOrder | matching/src/order_book.cpp:189-244 | a modify takes the flat step, with a reject for an unknown order or a foreign trader |
| OrderBooks.OrderBook.IndexAgreement | matching/include/order_book.hpp:35-47 | equal key sets; every element in a level is the indexed one, on its recorded side and price, once; every indexed element is in such a level; no level is empty |
| OrderBooks.OrderBook.GetBestPrice | matching/include/order_book.hpp:26-29 | the price of the head of the queue, than which no level is better, or 0 |
| OrderBooks.OrderBook.GetBestQty | matching/include/order_book.hpp:27-30 | the cached total of the best level, or 0 |
| BookInvariant.AddKeeps | matching/src/order_book.cpp:114-144 | a new order with an unused id keeps price-time order, unique ids, live at most recorded, and drift only on existing levels |
| BookInvariant.AddKeepsIff | matching/src/order_book.cpp:132-137 | a new order keeps the invariant if and only if nothing of it rests or its id is not resting after the match |
| BookInvariant.CancelKeeps | matching/src/order_book.cpp:146-187 | a cancel keeps the invariant and removes exactly the named id, if accepted, which is if the trader's order rests (Rules.AcceptedIff) |
| BookInvariant.ModifyKeeps | matching/src/order_book.cpp:189-244 | a modify keeps the invariant and the set of ids |
| BookInvariant.AtEnqueue | core/include/price_level.hpp:16-20 | a queued order is last in its level and in no other level |
| Rules.NewOrderRule | matching/src/order_book.cpp:34-144 | a new order meets the opposite queue in order while its limit admits it and something is left, takes all it can of each order at that order's price and nothing of its own trader's, which are cancelled; acknowledgement, trade and cancel confirmations and market data are listed field by field; the survivors stay and the remainder alone joins, recorded at its own size |
| Rules.AcceptedIff | matching/src/order_book.cpp:147-163 | a cancel or modify is accepted if and only if an order of that id and trader rests |
| Rules.CancelRule | matching/src/order_book.cpp:146-187 | a resting order of the trader is acknowledged, reported with its live quantity and gone, all others staying; any other cancel gets one reject and changes nothing |
| Rules.ModifyRule | matching/src/order_book.cpp:189-244 | a resting order of the trader gets price and quantity, its old entry time if the price is equal and the quantity below the recorded one, else the newest; all others stay; any other modify gets one reject and changes nothing |
| Matching.WalkShape | matching/src/order_book.cpp:39-109 | the survivors are a suffix of the old queue with at most the head reduced; the removed orders are exactly the prefix, each filled away or self-trade-cancelled; matching stops only when filled, empty or out of reach |
| Matching.ConfirmBound | matching/src/order_book.cpp:39-109 | at most two confirmations per removed order plus two, zero-quantity orders included |
| Matching.WalkConserves | matching/src/order_book.cpp:55-104 | incoming quantity is fills plus remainder; passive quantity is what is left plus traded plus self-trade-cancelled |
| Matching.ExecutesAllAvailable | matching/src/order_book.cpp:39-109 | the executed quantity is the smaller of the order and all the quantity it may trade with at its limit |
| Matching.WalkTrades | matching/src/order_book.cpp:58-90 | trades come in passive/aggressor pairs of different traders and equal quantity, both at the price of the resting order the first one names, within the limit, at prices that never improve |
| Matching.AddTrades | matching/src/order_book.cpp:114-130 | the same for the whole confirmation stream of a new order |
| Matching.AddConserves | matching/src/order_book.cpp:124-137 | read off the confirmations alone: own side grows by quantity minus trades, passive side shrinks by trades plus self-trade cancels |
| Matching.EveryOrderAccounted | matching/src/order_book.cpp:58-104 | for every passive order, traded plus self-trade-cancelled (per the confirmations naming it) plus still resting is what it had; own orders never trade, foreign ones are never cancelled |
| Matching.AddTellsOwners | matching/src/order_book.cpp:61-119 | every confirmation of a new order goes to the owner of the order it names |
| Uncrossed.AddApart | matching/src/order_book.cpp:39-51 | a new order never crosses an uncrossed book |
| Uncrossed.ModifyApartIff | matching/src/order_book.cpp:218-236 | an accepted modify leaves the book uncrossed if and only if its price would not trade at once |
| Uncrossed.ApplyApartIff | matching/src/order_book.cpp:114-244 | a request crosses an uncrossed book if and only if it is such a modify |
| Drift.WalkDrift | matching/src/order_book.cpp:75-103 | a passive level that survives a pass drifts by exactly the final fills at its price |
| Drift.DriftLaw | matching/src/order_book.cpp:213-217 | over one request, a level that outlives it drifts by its final fills or by the quantity an in-place modify gave up; a new level starts exact |
| Drift.ExactIff | core/include/price_level.hpp:13-13 | a cached total is the live sum in 32 bits if and only if the drift is a multiple of 2^32 |
| Priority.StaysPut | matching/src/order_book.cpp:208-236 | an order that is not re-queued keeps price, entry time and owner, and does not grow unless it is the one modified |
| Priority.OrderKept | core/include/price_level.hpp:16-29 | no request reorders two orders that both stay |
| Priority.ModifyPlace | matching/src/order_book.cpp:213-236 | a modify keeps the entry time if and only if the price is unchanged and the new quantity is below the recorded one; else every other order at the new price or a better one is ahead of it |
| Replay.WalkReplay | matching/src/order_book.cpp:66-94 | folding a pass's updates turns the picture before it into the picture after it, each update fitting what is known by then |
| Replay.ApplyReplay | matching/src/order_book.cpp:121-238 | the same for any request against a book |
| EngineSpec.HandleKeeps | matching/src/matching_engine.cpp:11-31 | no id rests twice, the counter advances by one modulo 2^64 per new order, other books are untouched |
| EngineSpec.RunKeeps | matching/src/matching_engine.cpp:11-31 | the same on every run whose new orders get fresh ids, a book no request names being as it was |
| EngineSpec.BoundedIsFresh | matching/src/matching_engine.cpp:12-12 | every run that does not exhaust the 64-bit counter hands out fresh ids only, and every resting id was handed out |
| EngineSpec.FreshId | matching/src/matching_engine.cpp:12-15 | while resting ids are below the counter, the next id rests in no book |
| EngineSpec.RunNumbers | matching/src/matching_engine.cpp:11-17 | the k-th new order of a run is numbered k modulo 2^64, unlisted symbols included, and for a listed symbol acknowledged first under that number and the client's own; requests for unlisted symbols are not answered |
| EngineSpec.RunFills | matching/src/order_book.cpp:80-94 | over every run buyers' fills equal sellers' fills and trade confirmations add up to twice that |
| EngineRuns.RunReplay | matching/src/order_book.cpp:66-238 | on every run, folding all emitted updates gives exactly the resting orders of all books, and no update contradicts what a listener knows |
| EngineRuns.BootReplay | matching/src/matching_engine.cpp:5-31 | the same from an empty engine and an empty picture, on every run of fewer than 2^64 new orders |
| EngineRuns.RunLifetime | matching/src/order_book.cpp:55-238 | over every such run, for every order: quantity entered, as modified, is quantity traded plus cancelled plus resting |
| EngineRuns.RunOrderKept | core/include/price_level.hpp:16-29 | two orders that rest throughout a run and are never re-queued keep their relative order |
| EngineRuns.RunApartIff | matching/src/order_book.cpp:39-51 | all books are uncrossed throughout a run if and only if no modify of it is accepted at a crossing price |
| EngineRuns.TotalLaw | core/include/price_level.hpp:17-34 | in every reachable state a cached total is the live sum plus the leaks since the level began, in 32 bits, and right exactly when those are a multiple of 2^32 |
| MatchingEngines.MatchingEngine.Initialize | matching/src/matching_engine.cpp:5-9 | every listed symbol gets a new, empty book |
| MatchingEngines.MatchingEngine.OnOrder | matching/src/matching_engine.cpp:11-17 | allocates the next id and takes the engine step |
| MatchingEngines.MatchingEngine.OnCancel | matching/src/matching_engine.cpp:19-24 | takes the engine step; an unknown symbol is ignored |
| MatchingEngines.MatchingEngine.OnModify | matching/src/matching_engine.cpp:26-31 | takes the engine step; an unknown symbol is ignored |
| MatchingEngines.MatchingEngine.GetBest | matching/include/matching_engine.hpp:30-45 | the highest bid or lowest ask resting and the cached total of its level; zero if nothing rests or the symbol is unknown |
| MatchingEngines.EngineTop | matching/include/matching_engine.hpp:30-45 | the same of the engine's state, told by the resting orders |
| Publishing.MarketState.Update | src/market_state.hpp:22-27 | overwrites one entry; an index out of range changes nothing |
| Publishing.MarketState.Get | src/market_state.hpp:29-35 | one entry, blank out of range |
| Publishing.MatchingThread.Tally | src/thread_matching.cpp:134-141 | applies the trades in order to last price, last quantity and 32-bit volume |
| Publishing.MatchingThread.Process | src/thread_matching.cpp:20-150 | a message that does not parse changes nothing; any other is matched and its instrument republished |
| Publishing.MatchingThread.Loop | src/thread_matching.cpp:20-151 | the event loop over a sequence of messages whose new orders get fresh ids |
| Publishing.ServeAgrees | src/thread_matching.cpp:130-150 | after every request of any run, for every symbol: cached quotes are the engine's, volume is the 32-bit sum of its trade confirmations, last trade is its last trade |
| Publishing.VolumeIsTwiceMatched | src/thread_matching.cpp:135-141 | a symbol's confirmed volume is twice the quantity bought in it |
| Pipeline.PublishedTop | src/thread_matching.cpp:143-149 | after every message, each listed instrument shows the highest bid and the lowest ask that rest, each with the live quantity there plus what the cached total has drifted, in 32 bits, or zero where nothing rests |
| Pipeline.UnlistedTop | src/thread_matching.cpp:143-149 | an instrument that is not traded shows zero |
| Spsc.MaskIsMod | containers/include/spsc_queue.hpp:14-17 | masking by a power of two minus one is the remainder |
| Spsc.NextInv | containers/include/spsc_queue.hpp:28-52 | every micro-step of either side keeps the invariant tying wrapped indexes, slots and stale snapshots to the unwrapped counts |
| Spsc.LinearFifo | containers/include/spsc_queue.hpp:28-52 | in every interleaving the popped sequence is a prefix of the pushed one, at most Capacity - 1 behind |
| Spsc.SlotExclusion | containers/include/spsc_queue.hpp:29-50 | a pending write never meets a pending read or an unread item, and a read finds the item pushed at that count |
| Spsc.FullVerdictAtLoad | containers/include/spsc_queue.hpp:30-34 | the comparison says full exactly when the loaded value was one lap behind, hence exactly when the queue was full at a fresh load |
| Spsc.EmptyVerdictAtLoad | containers/include/spsc_queue.hpp:43-47 | the comparison says empty exactly when the loaded value equals the pop count |
| Spsc.Sizes | containers/include/spsc_queue.hpp:77-79 | over the two separate loads of head and then tail, size is items pushed by the first minus items popped by the second if and only if the consumer has not overtaken the loaded head, 64-bit wrap-around included |
| Spsc.SizesTailFirst | containers/include/spsc_queue.hpp:77-79 | in the other order of loads the answer is right if and only if the difference is below the capacity |
| Spsc.EmptyAndFull | containers/include/spsc_queue.hpp:68-75 | for a head and a tail loaded at any two moments in any order, empty says yes if and only if items pushed and items popped are whole laps apart, and full if and only if they would be with one more item pushed |
| Spsc.AnswersHeadFirst | containers/include/spsc_queue.hpp:68-75 | with the head loaded first, empty and full are right if and only if the consumer has not gone whole laps past the loaded head, or the one after it, in between |
| Spsc.AnswerTailFirst | containers/include/spsc_queue.hpp:68-70 | with the tail loaded first, empty tells whether the ring was empty then and nothing was pushed since, if and only if the producer has not gone whole laps past the loaded tail |
| Spsc.FullOfEmpty | containers/include/spsc_queue.hpp:72-75 | at every capacity, an execution on which full says yes, the ring being empty at both loads and never holding more than one item |
| Spsc.EmptyOfBusy | containers/include/spsc_queue.hpp:68-70 | at every capacity above 2, an execution on which empty says yes in either load order, the ring never being empty |
| Spsc.SpscQueue.TryPush | containers/include/spsc_queue.hpp:28-39 | succeeds if and only if fewer than Capacity - 1 items are in flight, and appends |
| Spsc.SpscQueue.TryPop | containers/include/spsc_queue.hpp:42-52 | succeeds if and only if an item is in flight, and takes the oldest |
| Wire.LeRoundTrip | net/include/protocol.hpp:10-10 | reading a little-endian field gives the number written |
| Wire.Layout | net/include/protocol.hpp:31-59 | every message fills its packed size and announces it in its header |
| Wire.DecodeEncode | src/thread_matching.cpp:26-59 | parsing an envelope that starts with an encoded message gives that message's request |
| Wire.DecodeBytes | src/thread_matching.cpp:26-59 | byte by byte: type 1 with at least 24 bytes is a new order, 2 with 23 a modify, 3 with 15 a cancel, anything else is skipped; every field of the request as a sum of bytes, side byte 0 a buy |
| Wire.EncodeBytes | net/include/protocol.hpp:12-58 | lengths 24, 23 and 15 and types 1, 2 and 3 in the header, side byte 0 for a buy and 1 for a sell |
| Wire.OriginOf | net/include/protocol.hpp:119-160 | the message can be read back from its request, which also names the sender |
| Framing.ClientSession.Receive | src/thread_epoll.cpp:22-38 | everything received is appended in order |
| Framing.ClientSession.Round | src/thread_epoll.cpp:49-69 | one round pushes the envelope of the front message, or drops it if oversized, and consumes the announced length |
| Framing.ClientSession.PushRounds | src/thread_epoll.cpp:42-70 | the first n rounds on any buffer, zero-length headers included |
| Framing.ClientSession.PushFrames | src/thread_epoll.cpp:42-70 | pushes the complete messages, drops oversized ones, keeps the remainder |
| Framing.ClientSession.OnData | src/thread_epoll.cpp:16-71 | one readiness callback frames all that arrived |
| Framing.TerminatesIff | src/thread_epoll.cpp:42-70 | the framing loop ends if and only if no header it meets announces length 0 |
| Framing.PushedIff | src/thread_epoll.cpp:42-70 | what can have been pushed at some round: exactly the starts of the messages framed and, after a zero-length header, all of them and any number of empty envelopes |
| Framing.FrontBytes | src/thread_epoll.cpp:42-70 | byte by byte: fewer than 3 bytes or than announced wait; more than 128 announced is consumed unpushed; any other message is pushed as it is, padded with zeros, and consumed |
| Framing.OversizedDropped | src/thread_epoll.cpp:49-58 | an oversized message between well-formed ones is dropped and costs none of them |
| Framing.ZeroHeaderFloods | src/thread_epoll.cpp:60-69 | on any buffer that starts with a zero-length header n rounds push n empty envelopes, which decode to nothing, and leave the buffer as it is |
| Framing.FrameConcat | src/thread_epoll.cpp:36-70 | framing now and later behind the remainder is framing it all |
| Framing.ChunkIndependence | src/thread_epoll.cpp:36-70 | for every stream and every split, the messages framed and the remainder are those of the whole stream, up to a zero-length header |
| Framing.HistoryIndependence | src/thread_epoll.cpp:36-70 | for every stream and every split, what can have been pushed at some moment is what can have been with the stream in one piece, a flood of empty envelopes included |
| Framing.PrefixSplits | src/thread_epoll.cpp:46-47 | whatever has arrived of a well-formed stream is some whole messages and one that is still waited for |
| Framing.WireRoundTrip | net/include/protocol.hpp:119-160 | messages encoded, concatenated, split anyhow and framed decode to the same requests in order, an incomplete tail staying behind |
| Pipeline.SessionsApart | src/thread_epoll.cpp:16-71 | however callbacks of many sessions interleave, a trader's envelopes and buffer are those of framing its own stream |
| Pipeline.OutputCovers | src/thread_epoll.cpp:42-70 | any number of rounds into any callback, what the thread has pushed is a start of its output, the flood after a zero-length header included |
| Pipeline.WireToEngine | src/thread_epoll.cpp:60-64 | for any interleaving of callbacks and of the two threads on the ring, at any moment, a flood of empty envelopes included, the engine has run on requests of which each trader's are in order a prefix of what its stream encodes, and all of them once the stream has arrived whole and what was framed by then has been popped |
| Publishing.ProcessedIsServed | src/thread_matching.cpp:20-59 | the matching thread serves exactly the requests that parse |
| Pipeline.PublishedAfterEveryMessage | src/thread_matching.cpp:20-150 | after every message of any run, processed or skipped, quotes, volumes and last trades agree with all books |
| Sessions.AddRoutedIff | src/session_manager.hpp:19-23 | adding keeps routes live if and only if the connection is not one another trader is routed to |
| Sessions.AddInverseIff | src/session_manager.hpp:19-23 | adding keeps the maps inverse if and only if a live connection is re-added by its own trader or an absent one by a trader without a route |
| Sessions.RemoveReachableIff | src/session_manager.hpp:26-33 | ending a session costs a live trader its route if and only if the trader has another session |
| Sessions.SessionIff | src/session_manager.hpp:19-33 | a connection is a trader's exactly if its last login or logout was that trader's login |
| Sessions.RouteIff | src/session_manager.hpp:19-56 | a trader's route is the connection of its last login, unless one of its sessions has ended since; then there is none and -1 is reported |
| Sessions.RunRoutedIff | src/session_manager.hpp:19-33 | routes lead to live sessions of their traders throughout a run if and only if no login takes over a connection another trader is routed to |
| Sessions.RunInverseIff | src/session_manager.hpp:19-33 | the two maps are mutual inverses throughout a run if and only if no login of it doubles a connection or a trader |
| Sessions.RunReachableIff | src/session_manager.hpp:19-33 | every live trader has a route throughout a run if and only if no session ends while its trader has another one |
| Sessions.SessionManager.Add | src/session_manager.hpp:19-23 | both maps are overwritten |
| Sessions.SessionManager.Remove | src/session_manager.hpp:26-33 | session and the trader's route are dropped; an unknown connection changes nothing |
| Sessions.SessionManager.GetFd | src/session_manager.hpp:52-56 | the route or -1; with live routes, a session of that trader |
| Delivery.ApplyTells | matching/src/order_book.cpp:114-244 | every confirmation of any request goes to the holder of the order it names, except a reject, which answers a cancel or modify that was not accepted |
| Delivery.ApplyOwners | matching/src/order_book.cpp:114-244 | no request makes an order change hands |
| Delivery.RunTells | matching/src/matching_engine.cpp:11-31 | on every run of fewer than 2^64 new orders, every confirmation names the trader who entered the order, or is a reject naming one who asked about it |
| Delivery.PlayKeeps | src/thread_matching.cpp:62-120 | however logins, logouts, requests, lookups and sends interleave, each confirmation the engine issues is looked up once and in order, and finds the route of that moment |
| Delivery.StaysIff | src/session_manager.hpp:19-33 | a connection is still a trader's if and only if no login or logout was on it since, or the last one was the trader's login |
| Delivery.DeliveredIff | src/thread_matching.cpp:88-120 | while no login takes over a routed connection, a confirmation reaches a session of the trader it names if and only if the trader had a route at the lookup and kept the connection to the send |
| Delivery.ToldIff | src/thread_matching.cpp:88-120 | if moreover no logout strands a trader, what is sent of an order reaches the trader who entered it if and only if that trader was live at the lookup and kept the connection to the send |
| Delivery.ReusedConnection | src/thread_matching.cpp:89-95 | a connection closed and reused between lookup and send carries the confirmation to the other trader |
| Witnesses.ReportedQuantityDrifts | matching/src/order_book.cpp:96-100 | a level with 5 on offer reports 15 |
| Witnesses.GrowingModifyKeepsPlace | matching/src/order_book.cpp:211-216 | a live size of 3 becomes 9 without losing its place |
| Witnesses.ModifyCrosses | matching/src/order_book.cpp:218-236 | a bid modified above the ask rests there |

## Left out

- Sockets, epoll, the accept loop, signals and process start-up: system calls; received data is an arbitrary sequence of chunks.
- Use of a session after its disconnect (src/thread_epoll.cpp:24-32): framing is modelled while the session lives.
- Confirmation and market-update encoders and `send` (net/include/protocol.hpp:164-219): fresh structs field by field, results ignored.
- Delivery.DeliveredIff: a connection is whose the registry says it is; that a reused descriptor exists shortly before its login is registered, and what a send on a closed one does, is not modelled.
- Terminal dashboard and interactive client: user interface.
- Memory effects beyond interleaved atomic steps with coherent, possibly stale index loads; buffer accesses are sequentially consistent.
- Liveness of the spinning `push` and `pop`: needs a fair scheduler.
- Locks of `MarketState` and `SessionManager`: each locked method is one step. `getAllFds` and `getSession` only read.
- Timestamps and printing.
- Side bytes other than 0 and 1 on the wire are read as Sell, as every comparison in the book does; that the odd byte would be echoed in market data is not modelled.
- MatchingEngines.MatchingEngine.OnOrder: asks that the next id rests in no book, which holds until the 64-bit counter has wrapped around (`EngineSpec.BoundedIsFresh`); takes only new-order requests, as the dispatcher passes it.
- OrderBooks.OrderBook.AddOrder: leaves out orders that would rest under an id already resting, on which the source overwrites index entries and no consistent book exists (`BookInvariant.AddKeepsIff`).
- Publishing.MatchingThread.Process: asks for a fresh id where the message is a new order, as the engine does.
- Framing.ClientSession.PushFrames: is stated for buffers on which no header met is zero, since on any other the code does not return (`Framing.TerminatesIff`); `Framing.ClientSession.PushRounds` covers those.
- Framing.ClientSession.OnData: the same restriction.
- Sessions that open or close while data is framed: the live sessions of `Pipeline` are fixed, each with its own trader.
- `std::map` and `std::unordered_map` are Dafny maps; the first level is chosen as the best key. Freed elements are unreferenced, not deallocated.
