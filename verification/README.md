# A verified model of the order book and the layers around it

This project models, in Dafny, a market-by-order book built for speed, the layers
that feed it and the engine that matches against it, and proves what they promise
each other. Every claim is for all inputs and, where state is involved, for all
runs.

**The book.** `OrderBook` keeps price levels in a flat array, occupancy in 64-bit
words, the touch in two cached indices, each level's queue as a doubly linked list
threaded through a slot pool, ids in an open-addressed map, and the queue position
of our own orders incrementally. `BookSpec` says what a book means: queues of orders
at prices. Every operation of the fast book performs its abstract operation and
keeps one invariant over all those structures (`BookCore.Inv` and the touch and bit
predicates), whether it accepts or refuses. `ReferenceBook`, the naive book,
performs the same abstract operations, so the two agree on every stream of feed
events, own adds and cancels that fits, in what they accept, in state and in every
reading (`Differential`). What the abstract operations themselves come to is said a
second time, of a plain ledger of orders with their owners and their turns: `Ledger`
proves that every run answers and leaves what the ledger says. `BookAudit` performs
the book's own consistency check and proves that it cannot fail.

**The id map.** `OrderMap` refines a finite map for an arbitrary hash function:
linear probing, cyclic probe chains, and backward-shift deletion that breaks a chain
and repairs it.

**Matching.** `MatchingEngine` walks the book it changes. It is proved to consume
the opposite side's price-time list greedily (`MatchSpec`). Conservation, fairness,
what happens to the remainder, and that every fill recorded names an order that
rested at its price, side and owner follow (`MatchLaws`).

**The simulator.** Two books and arbitrary latencies. `Venues` says what each market
event and each action of ours does at the exchange, and what a public feed says of
it. Whatever the agent does, the exchange is where the events and the landed actions
put it, the agent's book is the run of a prefix of what was published, every fill is
published once and in order, and inventory is what our buys took less what our sells
did, and what hit our bids less what hit our asks (`VenueLaws`). If the agent sends
nothing, what was published makes exactly the exchange's book.

**The exchange decoder.** `BitstampDecoder` turns each line into at most three book
events. `FeedStep` says what belief each message leaves and what events it makes,
and the decoder is proved to leave and make exactly those; `FeedSpec` states when a
belief about every order is in step with a book. A whole capture keeps step if and
only if no line regrows an order and the orders believed to rest always fit the
book's slots; a capture of four lines is shown to lose it. `Belief` works out, from
the messages alone, what is believed after a capture. `Replay` closes the loop with
a real book and, in step, ends with exactly that belief and with every open order
resting as its last message named it. `Chain` shows that a capture in which no gap
is counted is whole. `CaptureSpec` says, with the printers of JSON and decimals,
which texts carry a message or a trade; `CaptureLine` reads every one of them back.

**Text.** The JSON scanner is proved against a recursive reading of the text, and
that reading is proved to find exactly what a printer of RFC 8259 (sections 2 to 7)
printed. Decimals are exact or refused, with both directions proved. `LineReader`
yields the lines of a stream however it is cut into chunks.

**The decision process.** `MdpSpec` enumerates what an action can lead to; its
probabilities are shown to sum exactly to the imbalance row, and `MdpOdds` gives the
odds of everything that can happen. `MdpReturn` defines on its own what a plan of
actions earns. `MdpSolve` is modified policy iteration: no plan earns more than the
policy it returns when it converges, up to the tolerance, and its values are within
an error bound of every fixed point of the Bellman operator, exact or up to any
amount; `MdpFixed` shows that the latter exist. `MdpRounds` shows that the iteration
converges for every tolerance above a floor, which its tie tolerance sets. Doubles
are reals.

**The histogram.** Slots, found by bit arithmetic, partition the values into
intervals of bounded relative width; recording, merging and percentile walks are
proved against the log of everything recorded.

**The flow generator.** For every sequence of draws it emits only events the book
accepts, and its live list equals the book's resting orders.

## Layout

| files | what they hold |
|---|---|
| Types, Bits, Queues | sides, events and errors; 64-bit words by their digits; queues of orders |
| OrderMap | the id map |
| BookSpec, BookViews, BookRuns, Ledger, ReferenceBook | what a book means, what a reader sees, whole runs, the ledger it keeps, the naive book |
| LevelQueue, BookCore, BookAdd, BookReduce, BookRemove, Touch | the fast book's state as a value: links, invariant, each operation, bits and touches |
| OrderBook, BookAudit, BookTouches, Differential | the fast book, its own consistency check, its touch, the differential harness |
| Flatten, MatchSpec, Matching, MatchLaws | the price-time list, greedy consumption, the engine, its laws |
| Venue, VenueLaws, Simulator | what happens at the exchange and what is said of it, what it does to our position, the two-book simulator |
| FeedSpec, FeedStep, Belief | belief and book, one message, a whole capture |
| Bitstamp, Chain, Replay, CaptureSpec, CaptureLine | the decoder, gaps, the replay loop, what raw lines say and reading them |
| JsonSpec, Json, Decimal, Lines, LineReader | text |
| PolicyState, MdpSpec, MdpOdds, MdpValue, Mdp, MdpFixed, MdpRounds, MdpReturn, MdpSolve | the decision process and its solver |
| SlotSpec, HistSpec, Histogram | the histogram |
| Flow | the order-flow generator |

## Reading the model

- A class is a class of the source with the same fields. Vectors that the source
  indexes and grows are sequence fields that the methods reassign; the id map's
  slots, the histogram's counts and the line reader's buffer are arrays. Ghost
  fields hold what the fields stand for: the chain of slots at each level, the log
  of every fill, the log of every sample, what has happened at the exchange and been
  published of it.
- Sizes, totals and inventory are unbounded integers.
- A slot number, a level index or a map value equal to 0xFFFFFFFF is the source's
  marker for "none", so pools and windows are at most that large.
- The matching engine reads id 0 as "this level is empty", so an order resting under
  id 0 ends a sweep; the model says so (`Ends`), and `OnlyOwnHalts` is about books
  without one.
- Random draws, latencies and the agent's reports are arbitrary values chosen in
  the method body, so a contract holds for all of them.
- `add` tests the window, the pool and crossing before duplicates, and the naive
  book tests duplicates first. The two therefore agree on acceptance and state, and
  on the error code unless both faults hold at once.

Where the code and its comments disagree the model follows the code. The comment in
src/histogram.cpp at lines 192 to 194 says that merging takes both extremes exactly;
the loop before it has already lowered the minimum to a slot's low edge, which
taking the other minimum afterwards cannot undo. `Merge` says exactly when the
result is exact all the same, and `MergeLosesMin` merges two histograms for which it
is not.

## Model

| member | source | states |
|---|---|---|
| `Bits.TestAfterSet` | include/lob/book/order_book.hpp:156-158 | setting an occupancy bit sets that bit and leaves the other 63 as they were |
| `Bits.TestAfterClear` | include/lob/book/order_book.hpp:159-161 | clearing an occupancy bit clears that bit and leaves the other 63 as they were |
| `Bits.TestAtOrBelow` | src/order_book.cpp:33-34 | the scan-down mask keeps exactly the bits at or below the start |
| `Bits.TestAtOrAbove` | src/order_book.cpp:49-50 | the scan-up mask keeps exactly the bits at or above the start |
| `Bits.HighestBit` | src/order_book.cpp:36-37 | 63 less the leading zeros is a set bit with none above it |
| `Bits.LowestBit` | src/order_book.cpp:52-53 | the trailing zeros point at a set bit with none below it |
| `Bits.MaskIsRemainder` | include/lob/book/order_map.hpp:58-61 | masking with a power of two less one is the remainder by that power |
| `OrderMaps.CapacityFor` | include/lob/book/order_map.hpp:40-46 | the capacity is a power of two, at least 32, at least twice the expected orders whenever that is within the ceiling |
| `OrderMaps.OrderMap.Masked` | include/lob/book/order_map.hpp:28-61 | in every valid table the mask cuts a hash down to its remainder by the number of slots, because that number stays a power of two |
| `OrderMaps.OrderMap.MaskedNext` | include/lob/book/order_map.hpp:61 | (i + 1) & mask is the next slot, and the first one after the last |
| `OrderMaps.OrderMap.Probe` | include/lob/book/order_map.hpp:58-62 | a probe ends at the key if it is stored and otherwise at an unused slot; it terminates for any hash while one slot is unused |
| `OrderMaps.OrderMap.Find` | include/lob/book/order_map.hpp:57-64 | the stored value of the key, or the empty marker exactly when the key is absent |
| `OrderMaps.OrderMap.Insert` | include/lob/book/order_map.hpp:82-92 | succeeds exactly when the key is new and the table is not full, and then the contents gain exactly that binding |
| `OrderMaps.OrderMap.Erase` | include/lob/book/order_map.hpp:94-101 | removes exactly that key, if present, and keeps every other binding |
| `OrderMaps.OrderMap.FindMovable` | include/lob/book/order_map.hpp:126-132 | walking on from a hole finds the first entry that may move into it, or proves that the chains are whole without it |
| `OrderMaps.OrderMap.EraseAt` | include/lob/book/order_map.hpp:121-136 | backward-shift deletion ends with every remaining entry reachable from its ideal slot, across the wrap-around, and exactly one binding gone |
| `OrderMaps.OrderMap.Clear` | include/lob/book/order_map.hpp:103-106 | the contents become empty |
| `OrderMaps.ProbeMiss` | include/lob/book/order_map.hpp:57-64 | a probe that reaches an unused slot proves the key is nowhere in the table |
| `OrderMaps.SoundAfterInsert` | include/lob/book/order_map.hpp:89-91 | writing a new key in the first unused slot of its chain keeps keys distinct and every chain unbroken |
| `OrderMaps.BlockedMeansOffChain` | include/lob/book/order_map.hpp:130 | the cyclic test `blocked` is exactly: the hole is not on the probe chain of that entry |
| `OrderMaps.HoleIsHarmless` | include/lob/book/order_map.hpp:126-131 | when the scan reaches an unused slot no chain runs through the hole |
| `OrderMaps.HoledAfterMove` | include/lob/book/order_map.hpp:133-134 | moving an entry back into the hole leaves one hole, at its old slot, and every other chain unbroken |
| `OrderMaps.TotalAfterMove` | include/lob/book/order_map.hpp:121-136 | each move brings an entry nearer its ideal slot, so deletion terminates |
| `OrderMaps.ContentsAfterMove` | include/lob/book/order_map.hpp:133-134 | moving an entry changes no binding |
| `OrderMaps.FullSize` | include/lob/book/order_map.hpp:83 | a table with every slot used holds as many keys as it has slots |
| `BookSpec.ApplyKeepsWellFormed` | include/lob/book/reference_book.hpp:44-118 | every operation, accepted or refused, leaves distinct positive orders in non-empty queues, an index that names each once, and a book neither crossed nor locked |
| `BookSpec.RunKeepsWellFormed` | include/lob/book/reference_book.hpp:44-118 | the same over every run of events |
| `BookSpec.HeldOnlyThere` | include/lob/book/reference_book.hpp:50-51 | an order rests in exactly the one queue its index entry names |
| `Ledgers.DoKept` | src/order_book.cpp:100-281 | every add of the feed or of ours, cancel, reduction, fill, replacement and clear, on any book: its answer is the first fault a ledger of the resting orders shows, and what it leaves is what that ledger says, with every order's side, price, size, owner and turn; a replacement keeps side and owner |
| `Ledgers.RunKept` | src/order_book.cpp:100-281 | the same after every run from the empty book |
| `Ledgers.RunTells` | src/order_book.cpp:129-152 | after every run an order rests exactly if the ledger says so, with its side, price and size, and is ours exactly if an accepted add of ours, or accepted replacements of it, put it there |
| `Ledgers.FirstIsAhead` | src/order_book.cpp:132-138 | of two orders at one price the one that joined first is ahead |
| `Ledgers.AddLeaves` | src/order_book.cpp:100-155 | an accepted add leaves its order at the back of its price with the size asked, ours exactly if it was added as ours, and no other order's place, size or owner changed |
| `BookRuns.LimitsAreInvisible` | src/order_book.cpp:100-124 | inside its window and below its capacity the limited book accepts exactly what the unlimited one accepts, of feed events, own adds and cancels, and reaches the same state; the error codes differ only when an add is both a duplicate and crossing, and then the limited book says crossing and the other duplicate |
| `BookRuns.RunsAgree` | src/order_book.cpp:267-281 | the two books end every fitting run of feed events, own adds and cancels in the same state |
| `BookRuns.JoinsAtTheBack` | src/order_book.cpp:133-151 | a new order has the whole of its queue in front of it |
| `BookRuns.AheadNeverGrows` | src/order_book.cpp:61-73 | while an order rests and is not replaced, nothing done to the book, by the feed or by us, increases the size ahead of it |
| `BookRuns.OthersBoundAhead` | src/order_book.cpp:149-228 | over every run of feed events, own adds and cancels, what is ahead at the end is at most what was ahead, and at most what else rested at the level, at any earlier moment since joining |
| `BookViews.DepthUnique` | src/order_book.cpp:306-318 | the depth ladder is determined by the queues alone |
| `ReferenceBooks.ReferenceBook.WouldCross` | include/lob/book/reference_book.hpp:47-48 | true exactly when some opposite price would trade with the order |
| `ReferenceBooks.ReferenceBook.Add` | include/lob/book/reference_book.hpp:44-53 | performs the abstract add, with the duplicate test before the crossing test |
| `ReferenceBooks.ReferenceBook.Remove` | include/lob/book/reference_book.hpp:66-79 | performs the abstract removal; the index-and-queue disagreement the code guards against cannot occur |
| `ReferenceBooks.ReferenceBook.Reduce` | include/lob/book/reference_book.hpp:55-64 | performs the abstract partial cancel; a cut to zero is a removal |
| `ReferenceBooks.ReferenceBook.Execute` | include/lob/book/reference_book.hpp:81-90 | performs the abstract fill |
| `ReferenceBooks.ReferenceBook.Replace` | include/lob/book/reference_book.hpp:92-102 | performs removal then add; the old order is gone even when the add is refused |
| `ReferenceBooks.ReferenceBook.ApplyEvent` | include/lob/book/reference_book.hpp:106-118 | one event moves the book as the specification says, with the same result code |
| `ReferenceBooks.ReferenceBook.QtyAt` | include/lob/book/reference_book.hpp:125-132 | the total size at a price |
| `ReferenceBooks.ReferenceBook.QueueAheadOf` | include/lob/book/reference_book.hpp:141-152 | the size in front of an order, -1 when it does not rest |
| `ReferenceBooks.ReferenceBook.LadderTop` | include/lob/book/reference_book.hpp:166-176 | the first n occupied prices from the touch outward, each with its total, none skipped |
| `ReferenceBooks.ReferenceBook.Best` | include/lob/book/reference_book.hpp:120-123 | the highest bid or the lowest ask, zero on an empty side |
| `ReferenceBooks.ReferenceBook.HasBest` | include/lob/book/reference_book.hpp:120-121 | whether anything rests on the side |
| `ReferenceBooks.ReferenceBook.LiveOrders` | include/lob/book/reference_book.hpp:154 | how many orders the index holds |
| `ReferenceBooks.ReferenceBook.OrdersAt` | include/lob/book/reference_book.hpp:134-138 | how many orders rest at a price |
| `ReferenceBooks.ReferenceBook.QtyOf` | include/lob/book/reference_book.hpp:157-164 | the size of a resting order, zero when it does not rest |
| `LevelQueue.LevelAppend` | src/order_book.cpp:127-141 | linking a slot at the tail keeps symmetric links, increasing ranks, count and total, and appends one entry to the queue |
| `LevelQueue.LevelUnlink` | src/order_book.cpp:87-96 | unlinking a slot keeps symmetric links, increasing ranks, count and total, and removes exactly that entry |
| `LevelQueue.LevelReduce` | src/order_book.cpp:166-168 | shrinking an order in place keeps the level consistent and changes one size |
| `BookCore.Locate` | include/lob/book/order_book.hpp:184-186 | every mapped order is linked at the level and side its record names |
| `BookCore.LocateAbs` | include/lob/book/order_book.hpp:184-186 | the linked order is the abstract entry of that id, at the same place in its queue |
| `BookCore.RankIsPosition` | src/order_book.cpp:61-68 | arrival ranks order a level exactly as its links do |
| `BookCore.OwnNonNegative` | src/order_book.cpp:68-70 | no tracked queue position is ever negative |
| `BookCore.MineIsOwn` | src/order_book.cpp:149-152 | every resting own order has a tracking record |
| `BookAdd.AddKeepsInv` | src/order_book.cpp:118-155 | an accepted add keeps the whole invariant and performs the abstract append |
| `BookReduce.ReduceKeepsInv` | src/order_book.cpp:166-175 | a partial cancel or fill keeps the whole invariant and performs the abstract reduction |
| `BookReduce.ReduceNoClamp` | src/order_book.cpp:64-73 | on a reduction the clamp at zero never fires |
| `BookRemove.RemoveKeepsInv` | src/order_book.cpp:182-207 | a removal keeps the whole invariant and performs the abstract removal |
| `BookRemove.RemoveNoClamp` | src/order_book.cpp:64-73 | on a removal the clamp at zero never fires |
| `Touch.ScanDown` | src/order_book.cpp:29-42 | the highest occupied level at or below the start, across word boundaries, or none |
| `Touch.ScanUp` | src/order_book.cpp:44-57 | the lowest occupied level at or above the start, across word boundaries, or none |
| `Touch.CrossingByTouch` | src/order_book.cpp:110-116 | comparing with the cached touch decides crossing against every resting opposite price |
| `Touch.TouchIsBest` | include/lob/book/order_book.hpp:96-99 | the cached touch is the best price of the abstract side, absent exactly when the side is empty |
| `Touch.BidTouchAfterScan` | src/order_book.cpp:200 | after the best bid level empties the scan result is the new touch |
| `Touch.AskTouchAfterScan` | src/order_book.cpp:201 | after the best ask level empties the scan result is the new touch |
| `OrderBooks.OrderBook.constructor` | src/order_book.cpp:10-25 | a new book is valid, empty, and its id map holds at least twice its orders |
| `OrderBooks.OrderBook.RefusalMeans` | src/order_book.cpp:101-116 | the tests before any mutation refuse exactly what the limited specification refuses, in that order |
| `OrderBooks.OrderBook.Add` | src/order_book.cpp:100-156 | performs the abstract add with the same result, and keeps the book valid whether it accepts or refuses |
| `OrderBooks.OrderBook.OnQtyRemoved` | src/order_book.cpp:64-73 | every own order behind the departing rank moves up by the size, and only those; the clamp changes nothing |
| `OrderBooks.OrderBook.DropOwn` | src/order_book.cpp:75-83 | swap-and-pop removes exactly that record |
| `OrderBooks.OrderBook.Unlink` | src/order_book.cpp:87-96 | rewrites exactly the neighbours, the level ends and the count |
| `OrderBooks.OrderBook.MarkEmptied` | src/order_book.cpp:195-202 | bits and both touches are right again after a level lost size |
| `OrderBooks.OrderBook.Remove` | src/order_book.cpp:178-208 | performs the abstract removal and keeps the book valid |
| `OrderBooks.OrderBook.Reduce` | src/order_book.cpp:158-176 | performs the abstract partial cancel and keeps the book valid |
| `OrderBooks.OrderBook.Execute` | src/order_book.cpp:210-228 | performs the abstract fill and keeps the book valid |
| `OrderBooks.OrderBook.Replace` | src/order_book.cpp:230-252 | performs removal then add at the back; a refused add leaves the old order gone |
| `OrderBooks.OrderBook.Clear` | src/order_book.cpp:254-265 | the book is valid and empty |
| `OrderBooks.OrderBook.ApplyEvent` | src/order_book.cpp:267-281 | one event moves the book as the specification says, with the same result code |
| `OrderBooks.OrderBook.RoomInMap` | include/lob/book/order_map.hpp:72-79 | the id map always has an unused slot, so no lookup can spin |
| `OrderBooks.OrderBook.QtyAt` | src/order_book.cpp:285-288 | the total of the abstract queue at the price, zero outside the window |
| `OrderBooks.OrderBook.OrdersAt` | src/order_book.cpp:301-304 | the length of the abstract queue at the price |
| `OrderBooks.OrderBook.QtyOf` | src/order_book.cpp:290-293 | the size of a resting order, zero when it does not rest |
| `OrderBooks.OrderBook.FrontOrderAt` | src/order_book.cpp:295-299 | the id at the front of the price-time queue, zero for an empty level |
| `OrderBooks.OrderBook.IsMine` | src/order_book.cpp:325-328 | whether the order rests and is ours |
| `OrderBooks.OrderBook.QueueAheadOf` | src/order_book.cpp:320-323 | the incrementally tracked position of every own order equals the summed size of the orders in front of it; -1 for any other id |
| `OrderBooks.OrderBook.HasBest` | include/lob/book/order_book.hpp:96-97 | whether anything rests on the side |
| `OrderBooks.OrderBook.Best` | include/lob/book/order_book.hpp:98-99 | the best price of the side, zero when it is empty |
| `OrderBooks.OrderBook.LiveOrders` | include/lob/book/order_book.hpp:127 | how many orders the abstract book holds |
| `OrderBooks.OrderBook.Depth` | src/order_book.cpp:306-318 | the first n occupied prices from the touch outward with their totals, none skipped |
| `BookAudit.AllLinked` | src/order_book.cpp:338-383 | the orders reachable from the levels are exactly as many as the id map holds |
| `BookAudit.WalkLevel` | src/order_book.cpp:350-377 | walking a level along its links: every link, rank, size, map, count and total check passes, and the walk meets every order of the level |
| `BookAudit.WalkOwn` | src/order_book.cpp:392-404 | a from-scratch walk finds each own order and exactly the tracked size ahead of it |
| `BookAudit.CheckTouch` | src/order_book.cpp:385-389 | a scan of the whole side finds the cached touch |
| `BookAudit.CheckInvariants` | src/order_book.cpp:332-406 | the book's own consistency check returns true on every valid book, hence after every run of operations |
| `Differential.Step` | include/lob/book/reference_book.hpp:1-24 | driven with one fitting feed event, own add or cancel, the fast and the naive book accept it together, with the same code unless it has two faults, and hold the same queues of id, size and ownership at every price |
| `Differential.Drive` | include/lob/book/reference_book.hpp:1-24 | over every fitting stream of them: each operation is accepted by both or by neither, its code is the specification's on the book of that moment, and both books end in the state the specification reaches |
| `Differential.SameView` | include/lob/book/reference_book.hpp:120-176 | presence and price of the touch, live orders, orders and size at a price, size of an order and the depth ladder read the same from both books, and are those of the abstract book; for an order of ours the fast book's running queue position is the naive book's walk |
| `Differential.ClearIsFresh` | src/order_book.cpp:254-265 | after a clear any further stream of feed events, own adds and cancels gets the same answers, and leaves the same book, as on a fresh one: the run from the empty book |
| `Flatten.FlatExists` | include/lob/sim/matching.hpp:138-140 | every side of every book has a price-time list |
| `Flatten.PriceTimeIs` | include/lob/sim/matching.hpp:138-140 | and only one: a list of non-worsening prices that holds each price's queue is determined by the book |
| `Flatten.FlatHead` | include/lob/sim/matching.hpp:144-159 | its head is the front order of the best level |
| `Flatten.FlatAfterRemove` | include/lob/sim/matching.hpp:166-169 | removing the head leaves the rest of the list |
| `Flatten.FlatAfterReduce` | include/lob/sim/matching.hpp:174-176 | shrinking the head leaves the same list with a smaller head |
| `MatchSpec.GreedyConserves` | include/lob/sim/matching.hpp:140-187 | what the order loses is what traded; what the list loses is what traded plus own orders dropped |
| `MatchSpec.TradesArePrefix` | include/lob/sim/matching.hpp:157-181 | the trades are exactly a prefix of the list with the dropped own orders left out, every order whole but possibly the last |
| `MatchSpec.GreedyStops` | include/lob/sim/matching.hpp:144-172 | a sweep stops only when filled, when nothing in reach is left, at an own order under CancelIncoming, or at an order under id 0, which the engine reads as an empty level |
| `MatchSpec.TradesInReach` | include/lob/sim/matching.hpp:149-153 | no trade is past the limit, and none has both sides ours except under Allow |
| `MatchSpec.PricesWorsen` | include/lob/sim/matching.hpp:144-148 | trade prices never improve along a sweep |
| `Matching.FillsSum` | include/lob/sim/matching.hpp:178-179 | the fills recorded add up to the size traded |
| `Matching.LevelReads` | include/lob/sim/matching.hpp:157-163 | while a level is drained, the book's front, size and ownership reads are those of the head of the list, and an empty front means the level is done or its head is under id 0 |
| `Matching.MatchingEngine.HitFront` | include/lob/sim/matching.hpp:164-181 | one step at the front: drop our own order, stop at it, or trade as much as both sides allow; the book never refuses the execution |
| `Matching.MatchingEngine.DrainLevel` | include/lob/sim/matching.hpp:155-182 | drains one level front first; it makes progress unless its front is under id 0, and reports which |
| `Matching.MatchingEngine.SweepBook` | include/lob/sim/matching.hpp:144-184 | the outer loop terminates, without progress only at an order under id 0, having consumed the list greedily |
| `Matching.MatchingEngine.Cross` | include/lob/sim/matching.hpp:140-187 | the book afterwards, the fills, the unfilled size and the self-match count are exactly those of greedy consumption of the opposite side in price-time order |
| `Matching.MatchingEngine.SubmitLimit` | include/lob/sim/matching.hpp:70-85 | crosses, then offers exactly the remainder to the book, and reports what filled, what rests and why not |
| `Matching.MatchingEngine.SubmitMarket` | include/lob/sim/matching.hpp:90-99 | crosses without a limit and never rests |
| `Matching.MatchingEngine.Cancel` | include/lob/sim/matching.hpp:101 | removes the order as the book does |
| `Matching.MatchingEngine.FillAt` | include/lob/sim/matching.hpp:121-123 | a global index inside the window gives the fill made at that position of the whole log |
| `Matching.MatchingEngine.ConsumeThrough` | include/lob/sim/matching.hpp:126-132 | the window slides to the index, never back and never past the log; the log is unchanged |
| `Matching.MatchingEngine.ClearFills` | include/lob/sim/matching.hpp:133 | the window becomes empty at the end of the log |
| `MatchLaws.SubmissionConserves` | include/lob/sim/matching.hpp:74-83 | filled equals the sum of the fills and exactly the size opposing orders lost by execution |
| `MatchLaws.CrossingAfter` | include/lob/sim/matching.hpp:79-81 | after the sweep the remainder would cross exactly when the sweep left someone within the limit |
| `MatchLaws.RemainderRests` | include/lob/sim/matching.hpp:80-83 | the remainder is never refused as crossing unless the sweep halted with someone in reach, when it never rests; it rests exactly when not halted, in the window, under capacity and not a duplicate |
| `MatchLaws.OnlyOwnHalts` | include/lob/sim/matching.hpp:157-172 | while no order rests under id 0, a sweep halts with someone in reach only at an own order under CancelIncoming |
| `MatchLaws.SubmittedIsAccounted` | include/lob/sim/matching.hpp:70-85 | filled plus resting is what was submitted unless an error drops the rest, and the book is never crossed afterwards |
| `MatchLaws.FillsAreFair` | include/lob/sim/matching.hpp:140-187 | every fill is within the limit, no better than the one before, and never with both sides ours unless allowed |
| `MatchLaws.FillsTakeTheList` | include/lob/sim/matching.hpp:160-186 | the k-th fill recorded is of the k-th order of the tradable list, at its price, with its owner and size, the last perhaps with less; with the incoming order's id, owner and time and the other side |
| `MatchLaws.FillsAreReal` | include/lob/sim/matching.hpp:160-186 | on the book before, the order each fill names rested at the fill's own side and price, with that owner and at least that size; fill prices are within the limit and never improve; both sides are ours only under Allow |
| `MatchLaws.SelfMatchesAre` | include/lob/sim/matching.hpp:157-172 | own orders met are counted once each: those traded with under Allow, those dropped under CancelResting, the one stopped at under CancelIncoming, none for an order from elsewhere |
| `Venues.PublishedIsTruth` | include/lob/sim/simulator.hpp:103-133 | what is published of a market event, the event itself or the executions a market order caused, applied one by one gives exactly the exchange's book after it |
| `Venues.PassiveIsTruth` | include/lob/sim/simulator.hpp:85-143 | after any sequence of market events alone, the run of everything published is the exchange's book, and no fill is unpublished |
| `Venues.EachFillSaidOnce` | include/lob/sim/simulator.hpp:227-236 | after any sequence of market events and own actions, every fill made up to the last market event has been published exactly once, in the order it was made |
| `VenueLaws.TakenIsReal` | include/lob/sim/matching.hpp:157-186 | of every order, ours or not, at any moment: each fill it makes is dated and signed by it and names an order that rested opposite, at that price, with that owner and size |
| `VenueLaws.ActionMoves` | include/lob/sim/simulator.hpp:238-251 | where self-trading is not allowed, a market or limit action of ours moves our position up by what it filled when it buys and down when it sells; under Allow what hit our own orders counts the other way; a cancel moves nothing |
| `VenueLaws.EventMoves` | include/lob/sim/simulator.hpp:238-251 | a market order from elsewhere moves our position up by our bids it hit and down by our asks; every other event leaves it |
| `VenueLaws.LimitRests` | include/lob/sim/simulator.hpp:198-220 | what a limit action does not fill rests as ours on its side at its price behind all that rests there, if the book takes it, and nothing else rests |
| `VenueLaws.CancelRemoves` | include/lob/sim/simulator.hpp:198-220 | a cancel takes its order off the book, if it rests, and leaves every other as it was |
| `VenueLaws.AlwaysWellFormed` | include/lob/sim/simulator.hpp:83-146 | after everything that can happen the exchange's book is well formed, so these hold at every moment |
| `VenueLaws.SaidIsReal` | include/lob/sim/simulator.hpp:103-139 | what is published of a market order: executions at its time, each of an order that rested opposite with at least that size |
| `VenueLaws.PositionIsNet` | include/lob/sim/simulator.hpp:238-251 | over every run our position is the sum of what each action and event moved it, each said by side and size |
| `Simulators.Simulator.Deliver` | include/lob/sim/simulator.hpp:253-260 | an event handed over is heard later, in order, or at once without latency; whatever the latencies, the agent's book is the run of a prefix of the events |
| `Simulators.Simulator.DrainMarketData` | include/lob/sim/simulator.hpp:262-268 | hears every event that has arrived, keeping that lag relation |
| `Simulators.Simulator.PublishNewFills` | include/lob/sim/simulator.hpp:227-236 | publishes every fill made since last time, once and in order, reading each while it is still in the window |
| `Simulators.Simulator.BookFills` | include/lob/sim/simulator.hpp:238-251 | inventory is the signed sum of our side of every fill ever made, which PositionIsNet says in terms of sides and sizes |
| `Simulators.Simulator.ApplyAction` | include/lob/sim/simulator.hpp:198-220 | a limit action sweeps greedily in price-time order what its price reaches and offers the rest to the book, a market action sweeps without a limit, a cancel removes; all stamped with the arrival time, and the fills reach the log and the inventory |
| `Simulators.Simulator.NextArrived` | include/lob/sim/latency.hpp:105-122 | the earliest arrived action, ties by decision time then id |
| `Simulators.GoesFirst` | include/lob/sim/latency.hpp:105-122 | the earlier arrival goes first; of two together the one decided first, and then the lower id |
| `Simulators.Simulator.DrainActions` | include/lob/sim/simulator.hpp:190-196 | exactly the actions that have arrived reach the exchange, earliest first, ties by decision time then id, each with its effect on book and log; the rest stay in flight |
| `Simulators.Simulator.TakeFromBook` | include/lob/sim/simulator.hpp:108-117 | a market order from elsewhere leaves the book and the fill log of the greedy sweep of the opposite side |
| `Simulators.Simulator.Send` | include/lob/sim/simulator.hpp:184-188 | an action waits for its arrival, or lands at once without latency |
| `Simulators.Simulator.Handle` | include/lob/sim/simulator.hpp:103-139 | the event is applied or swept; published are then the event, unless it was a market order, and every fill not yet published, whoever caused it |
| `Simulators.Simulator.Turn` | include/lob/sim/simulator.hpp:85-143 | one turn: the arrived actions land in order, then the event is handled; the exchange's book and fill log are those of everything that has happened, and what has been published is exactly what a feed says of it; only published fills are trimmed, whatever the agent reports as read |
| `Simulators.Simulator.RunPassive` | include/lob/sim/simulator.hpp:83-146 | for an agent that sends nothing and reports any read index: exactly the given events happen at the exchange, and after every one the agent's book is the exchange's book after a prefix of what was published of them, and equals it without latency |
| `Simulators.Simulator.RunActive` | include/lob/sim/simulator.hpp:83-146 | for an agent that sends and reports anything: what happened is all the events in order with the agent's actions between them; the exchange's book and fill log are those of it, and exactly what a feed says of it is published; inventory is what the agent's buys took less what its sells did, and what hit its resting bids less what hit its asks; what has arrived ten seconds after the end has landed |
| `FeedSpec.MarketableCrosses` | include/lob/feed/bitstamp.hpp:256-258 | given the book's touch, marketable is exactly crossing |
| `FeedSpec.RegrowthFails` | src/bitstamp.cpp:268-276 | the one failing family: an order already at nothing grows in place at a price the book has moved through; its add is refused as crossing and decoder and book fall out of step |
| `FeedStep.MessageKeepsStep` | src/bitstamp.cpp:141-279 | for every message and whatever it leaves believed: decoder and book in step before are in step after if and only if the pool has a slot for the order, where it is to rest, and the regrowth case does not occur; and then every add with a size is accepted |
| `FeedStep.RegrowthBreaks` | src/bitstamp.cpp:268-276 | in the regrowth case the add is refused and step is lost |
| `FeedStep.FullBreaks` | src/bitstamp.cpp:134-160 | with every slot taken by another order, an order that is to rest puts decoder and book out of step whatever the events |
| `BookRuns.RunKeepsCapacity` | src/order_book.cpp:103 | no run of events makes the book hold more orders than it has slots |
| `FeedStep.EventsShape` | src/bitstamp.cpp:134-279 | a message makes at most three events, numbered consecutively, and what they execute is the traded size capped at what was believed to rest |
| `FeedStep.EventsFit` | src/bitstamp.cpp:134-279 | every event is about the message's order at its time: an add as the message says, anything else at the side and price the order was believed to rest at |
| `FeedStep.EventsAccount` | src/bitstamp.cpp:134-279 | no size is made up or lost: what was believed to rest, plus what is added, less what is executed, reduced and deleted, is what is believed to rest after |
| `FeedStep.ExecutedIs` | src/bitstamp.cpp:206-225 | of a resting order exactly the traded size executes, and all that was believed to rest if more traded |
| `FeedStep.SuccessorRests` | src/bitstamp.cpp:141-279 | after a message its order is believed to rest, as the message says, exactly if it is open, was never held outside the band, has a size and a price in the band, and does not cross or rested at that price |
| `FeedStep.MessageMoves` | src/bitstamp.cpp:141-279 | where step is kept the book then holds the order exactly so, and every other order as before, and no add is refused |
| `FeedStep.BandIsWindow` | include/lob/feed/bitstamp.hpp:260-263 | for a decoder aligned with its book the band is the book's window |
| `FeedStep.StaysBanded` | src/bitstamp.cpp:141-160 | no order outside the band is ever believed to rest |
| `FeedStep.CreatedFollows` | src/bitstamp.cpp:141-160 | a create keeps step: it is held outside the band, held as marketable, or added and accepted |
| `FeedStep.PendingFollows` | src/bitstamp.cpp:177-204 | an order held as marketable keeps step: it takes nothing from the book until it no longer crosses, and then its add is accepted |
| `FeedStep.RestingFollows` | src/bitstamp.cpp:206-279 | a change or delete of a resting order keeps step outside the regrowth case |
| `Bitstamp.BitstampDecoder.Emit` | src/bitstamp.cpp:134-138 | the three-event buffer has room at every emission, and sequence numbers are consecutive |
| `Bitstamp.BitstampDecoder.OnCreated` | src/bitstamp.cpp:141-160 | the order is believed held outside the band, held as marketable, or resting, and added in the last case only |
| `Bitstamp.BitstampDecoder.OnPending` | src/bitstamp.cpp:177-204 | a delete forgets the order without an event; otherwise it takes the message's size and price and either stays held as marketable, is held outside the band, or rests with one add |
| `Bitstamp.BitstampDecoder.TakeFill` | src/bitstamp.cpp:206-225 | what executes, and leaves the believed size, is the traded size capped at what was believed to rest; a message that names more in all is counted |
| `Bitstamp.BitstampDecoder.OnDeleted` | src/bitstamp.cpp:227-237 | what is left is deleted at the believed price and side, and the order is forgotten |
| `Bitstamp.BitstampDecoder.OnRepriced` | src/bitstamp.cpp:242-259 | a delete at the old price, and the belief and add of a fresh decision at the new one |
| `Bitstamp.BitstampDecoder.OnResized` | src/bitstamp.cpp:261-277 | a smaller size is a reduction by the difference, a larger one a delete and an add of the whole; the size believed is the message's |
| `Bitstamp.BitstampDecoder.OnResting` | src/bitstamp.cpp:206-279 | the fill, then the delete, fresh decision or resize, on the size the fill left: exactly the specified successor belief and events |
| `FeedStep.GrowthIsSafe` | src/bitstamp.cpp:268-274 | growing at one's own resting price never crosses |
| `Bitstamp.BitstampDecoder.OnMessage` | src/bitstamp.cpp:141-279 | for every order message the belief left and the events made are exactly the successor and the events of the specification, of which step is proved to be kept if and only if the regrowth case does not occur; fills are summed |
| `Bitstamp.BitstampDecoder.FollowChain` | src/bitstamp.cpp:77-92 | a gap is counted exactly when the named predecessor is not the remembered id, which is kept to 48 characters |
| `Chains.GapsAreSkips` | src/bitstamp.cpp:77-92 | of a chain the exchange sent, some lines captured: the gaps counted are exactly the places where lines are missing in between |
| `Chains.NoGapsIsWhole` | include/lob/feed/bitstamp.hpp:42-46 | no gap is counted if and only if the capture holds every line sent between its first and its last |
| `Bitstamp.BitstampDecoder.DecodeLine` | src/bitstamp.cpp:36-279 | the whole line: false exactly for unusable lines, nothing changed by non-order lines, and for order lines the successor belief and the events of their message, with its times; a trade line is reported as a trade, with its price, size, taker and times, and makes no event; gaps and the id remembered are those of FollowChain |
| `Bitstamp.BitstampDecoder.ResetSession` | include/lob/feed/bitstamp.hpp:238-242 | forgets every order and breaks the chain |
| `Beliefs.NextIsWellFed` | src/bitstamp.cpp:141-279 | on a feed with fresh creates, stable sides and non-negative sizes the next message is one the decoder can follow |
| `Beliefs.CrossingIsBelieved` | include/lob/feed/bitstamp.hpp:256-258 | in step, crossing the book is crossing an order believed to rest, so the belief follows from the messages alone |
| `Beliefs.BelievedAreOpen` | src/bitstamp.cpp:141-237 | the orders tracked are exactly those created and not yet deleted |
| `Beliefs.LastWordHolds` | src/bitstamp.cpp:141-279 | after every well-formed feed each of them is held outside the band, or has the size, price and side its last message named |
| `Replays.LineKeepsStep` | src/bitstamp.cpp:36-279 | one line keeps step if and only if it does not regrow an order and the orders then believed to rest do not outnumber the slots; belief and events are those of the messages alone |
| `Replays.StaysInStep` | src/bitstamp.cpp:36-279 | over every feed with fresh creates, stable sides and non-negative sizes: decoder and book are in step after every line if and only if no line regrows an order and the orders believed to rest never outnumber the slots |
| `Replays.EndsFaithful` | src/bitstamp.cpp:36-279 | and then no add is refused, the book is the run of the events the messages alone determine, the orders tracked are exactly those created and not deleted, and every one not pending, suppressed or down to nothing rests with the size, price and side its last message named, while no other order rests |
| `Replays.NeverBackIsEnough` | src/bitstamp.cpp:268-276 | a feed that never changes an order back from nothing regrows none |
| `Replays.OpenFits` | src/bitstamp.cpp:141-160 | if the orders created and not yet deleted never outnumber the slots, nor do those believed to rest |
| `Replays.ReplayLine` | src/bitstamp.cpp:36-279 | for any decoder, book and line: decoded against the book's own touch and applied, the line moves belief and book exactly as one step of the specified loop; the count of refused adds is zero exactly when every add with a size is accepted |
| `Replays.Replay` | src/bitstamp.cpp:36-279 | for any decoder, book and capture: belief and book end where the specified loop ends, no add is refused exactly when every one is accepted, and the gaps counted are those of the chain; from an empty start over a feed that keeps step the end is the faithful one |
| `Replays.RegrowthReached` | src/bitstamp.cpp:268-276 | four lines take a new decoder and a new book out of step |
| `CaptureLines.ScanLine` | src/bitstamp.cpp:41-136 | from the raw text, every order message a line carries, in any layout, is read back with its times |
| `CaptureLines.OrderIsRead` | src/bitstamp.cpp:16-132 | every text that is a JSON object, in any layout and with any other members, whose fields name a kind, id, side, price, size and traded size reads as exactly that message, at its times, with its ids |
| `CaptureLines.TradeIsRead` | src/bitstamp.cpp:57-70 | every text that carries a trade reads as that trade |
| `CaptureSpec.PrintedCarries` | tests/test_bitstamp.cpp:56-68 | an order message printed in the feed's layout is such a text |
| `CaptureLines.PrintedIsRead` | tests/test_bitstamp.cpp:56-68 | so printing an order message as a capture line and scanning the line gives back the message, its times and its ids |
| `CaptureLines.DecodeText` | src/bitstamp.cpp:36-279 | from the raw text: whatever order message a line carries, its successor belief and its events at its time; whatever trade it carries, a report of that trade and nothing else; of any other text, what its fields say |
| `JsonSpec.SkipsValue` | include/lob/feed/json.hpp:57-91 | on printed JSON followed by anything, the scanner passes over exactly one value, however nested and whatever its strings contain |
| `JsonSpec.FindsFirst` | include/lob/feed/json.hpp:93-130 | on every printed object, with any whitespace, the lookup gives the raw text of the first of its own members with that raw key, and nothing if there is none |
| `JsonSpec.IteratesAll` | include/lob/feed/json.hpp:141-163 | iterating a printed array yields its elements in order, strings unquoted |
| `Json.SkipWs` | include/lob/feed/json.hpp:33-35 | moves past exactly the whitespace |
| `Json.SkipString` | include/lob/feed/json.hpp:40-55 | on any text: ends inside it, and succeeds exactly on a terminated literal, just past its closing quote |
| `Json.SkipNest` | include/lob/feed/json.hpp:66-84 | on any text: a counter instead of recursion finds the bracket that closes the first one, or fails |
| `Json.SkipValue` | include/lob/feed/json.hpp:60-91 | on any text: passes one value as the specification reads it, and stays inside the text |
| `Json.Find` | include/lob/feed/json.hpp:104-130 | on any text: the range returned lies inside it and holds what the specification finds |
| `Json.FindScalar` | include/lob/feed/json.hpp:135-139 | the same without the quotes of a string value |
| `Json.ArrayNext` | include/lob/feed/json.hpp:145-163 | on any text: the next element as the specification reads it, inside the text, with the cursor advanced |
| `Json.AllElements` | include/lob/feed/json.hpp:141-163 | calling it until it fails yields every element |
| `Decimal.ParseU64` | include/lob/feed/json.hpp:167-178 | succeeds exactly on non-empty digits up to 2^64 - 1, with that number |
| `Decimal.ParseDecimal` | include/lob/feed/json.hpp:194-241 | succeeds exactly on an optional sign, digits and an optional fraction with a digit somewhere, nothing significant beyond the scale, magnitude at most INT64_MAX; the result is that value |
| `Decimal.Exact` | include/lob/feed/json.hpp:180-193 | the scaled integer is exactly value times ten to the scale |
| `Decimal.AcceptsSplit` | include/lob/feed/json.hpp:194-232 | a text reads as a decimal in at most one way |
| `Decimal.PrintedReads` | include/lob/feed/json.hpp:180-241 | printing a scaled integer and parsing it returns it |
| `PolicyState.DecodeEncode` | include/lob/policy/state.hpp:103-121 | unpacking a packed state returns it, and the code is in range |
| `PolicyState.EncodeDecode` | include/lob/policy/state.hpp:103-121 | packing an unpacked code returns it, and the state is valid |
| `PolicyState.ActionRoundTrip` | include/lob/policy/state.hpp:123-128 | actions pack and unpack both ways |
| `PolicyState.SideRoundTrip` | include/lob/policy/state.hpp:83-94 | level and queue bucket pack and unpack both ways |
| `PolicyState.ImbBucket` | include/lob/policy/state.hpp:132-137 | the bucket is the number of edges below the imbalance |
| `PolicyState.QueueBucket` | include/lob/policy/state.hpp:148-168 | the bucket is the one whose floor the fraction has passed and whose ceiling it has not |
| `MdpSpec.ApplyAction` | src/mdp.cpp:36-41 | asking for the level already quoted keeps the queue place; another level joins at the back |
| `MdpSpec.Advance` | src/mdp.cpp:43-47 | the queue ahead drains by one bucket, the level stays |
| `MdpSpec.StepAway` | src/mdp.cpp:64-69 | one level out with the same queue place, or out of the window |
| `MdpSpec.StepToward` | src/mdp.cpp:73-77 | one level in with the same queue place; a touch quote is gone |
| `MdpSpec.BranchesTally` | src/mdp.cpp:188-288 | for valid parameters the outcomes of any action have total probability exactly one, and each side fills with its own probability whatever the other side does |
| `MdpSpec.BranchesSensible` | src/mdp.cpp:220-288 | in every outcome inventory changes by the fills, each fill earns its own side's edge, a filled side is flat, and any other is where the move left it, with its queue place, and gone only if it left the levels |
| `MdpOdds.OddsAre` | src/mdp.cpp:188-288 | the odds of each move, of both fills, of a move that marks the price after a fill, and of either or both queues advancing are, over all the outcomes of any action, the products the process gives |
| `MdpOdds.TablesAreRead` | src/mdp.cpp:87-101 | a quote fills, advances and earns by the entries of its own level and queue bucket; no quote does none of it |
| `MdpOdds.RewardIs` | src/mdp.cpp:199-206 | the edge is earned in full; a long inventory gains by a rise and a short one loses; holding either costs by its square |
| `MdpOdds.SuccessorComes` | src/mdp.cpp:208-218 | every successor is some sensible outcome's, followed by some imbalance, with the product of their probabilities and that outcome's reward |
| `MdpOdds.ImbalanceGoes` | src/mdp.cpp:208-218 | whatever is done, the imbalance goes to each bucket with exactly its row's probability |
| `MdpSpec.ClampNeverActs` | src/mdp.cpp:103-121 | for admissible actions no possible outcome is past the position limit, so the clamp changes nothing |
| `MdpSpec.SuccessorMass` | src/mdp.cpp:208-218 | successor probabilities sum to exactly the imbalance row sum |
| `MdpSpec.SuccessorsValid` | src/mdp.cpp:208-218 | every successor has positive probability and a valid state code |
| `Mdp.Emit` | src/mdp.cpp:208-218 | one outcome becomes one transition for each imbalance that can follow it, impossible ones left out |
| `Mdp.Expand` | src/mdp.cpp:188-289 | appends exactly the successors, to any buffer |
| `MdpSolve.Validate` | src/mdp.cpp:158-186 | true exactly for parameters that are probabilities in range with rows summing to one within 1e-6 |
| `MdpSolve.Stochastic` | src/mdp.cpp:291-318 | true exactly when the successor probabilities of each admissible pair of state and action have mass one within 1e-9 |
| `MdpSolve.StochasticIsRows` | src/mdp.cpp:291-318 | for valid parameters that holds exactly when every imbalance row does |
| `MdpValue.Contraction` | src/mdp.cpp:343-349 | a backup brings two value functions closer by the discount |
| `MdpReturn.ValueSplits` | src/mdp.cpp:343-349 | a backup is the mean reward plus the discount times the mean value of where the action leads, two separate sums |
| `MdpReturn.RaisedIsWorth` | src/mdp.cpp:343-349 | paying c more in every outcome is worth c times the mass |
| `MdpReturn.NoPlanBeats` | src/mdp.cpp:351-387 | values no action beats by more than a slack bound the discounted reward of every plan, over any number of steps and however it changes from step to step |
| `MdpReturn.PolicyEarns` | src/mdp.cpp:351-387 | values a policy keeps up with to a slack are earned by following it, up to that slack and what lies beyond the steps |
| `MdpReturn.StepIsOptimal` | src/mdp.cpp:351-387 | a greedy step that moved no value by tol leaves values no action beats by more than the tie and the discounted tol, and a policy within the latter |
| `MdpValue.SuccessorRewards` | src/mdp.cpp:203-206 | every reward is within twice the largest edge, a full inventory marked by one move, and its penalty |
| `MdpValue.BackupWithin` | src/mdp.cpp:343-349 | a backup of values within reward cap / (1 - discount) stays within it |
| `MdpValue.NearFixedPoint` | src/mdp.cpp:351-373 | a greedy step that moved less than tol is within (1e-12 + eta + discount * tol) / (1 - discount) of every fixed point of the Bellman operator, up to eta |
| `MdpFixed.AlmostFixedExists` | src/mdp.cpp:328-340 | for every eta above zero some values are a fixed point of the Bellman operator up to eta, so the error bounds are about something |
| `MdpRounds.ActionUnder` | src/mdp.cpp:343-349 | a backup keeps the order of two value functions up to the discounted amount |
| `MdpRounds.RoundOnTrack` | src/mdp.cpp:351-387 | one greedy step and 32 evaluations discount what the values may lose and how far they are above and below a fixed point, up to the ties |
| `MdpRounds.RoundsExist` | src/mdp.cpp:351-387 | for every tolerance above the floor the ties set there is a number of rounds after which no greedy step moves a value by as much |
| `MdpSolve.BestAction` | src/mdp.cpp:355-367 | the action chosen is admissible, within the tie tolerance of every admissible one, and ahead of every lower-numbered one |
| `MdpSolve.Improve` | src/mdp.cpp:352-372 | a greedy step in every state, with the exact max-norm residual |
| `MdpSolve.Settle` | src/mdp.cpp:381-386 | the value returned is the given one after exactly min(32, what the sweep limit leaves) evaluations of the policy, and the value bound is kept |
| `MdpSolve.Solve` | src/mdp.cpp:320-389 | the policy is admissible everywhere; when converged on an exact process whose value cap, largest reward over one less the discount, is below 1e300, the value is within the error bound of every fixed point up to eta, no action beats it by more than the tie and the discounted tolerance, and the policy keeps up with it, so that it earns what any plan does; every iterate keeps the cap; when the cap is at most half the threshold divergence is never flagged, and for every tolerance above the floor the ties set the run converges, given so many sweeps |
| `MdpReturn.PolicyIsBest` | src/mdp.cpp:320-389 | over any number of steps no plan earns more than such values, nor the policy less, up to the slacks over one less the discount and to the discounted bound beyond the steps |
| `MdpSolve.SolutionIsBest` | src/mdp.cpp:320-389 | so the policy a converged run returns earns at least what any plan of admissible actions does, up to that |
| `SlotSpec.SlotMonotone` | src/histogram.cpp:81-84 | larger values have no smaller slots |
| `SlotSpec.SameSlot` | src/histogram.cpp:93-106 | values share a slot exactly when they lie between its edges |
| `SlotSpec.SlotEdges` | src/histogram.cpp:86-106 | the slot number alone gives back the low edge; the high edge is one width on, less one |
| `SlotSpec.SlotFromSlot` | src/histogram.cpp:86-91 | every slot number is the slot of the value it stands for |
| `SlotSpec.Precision` | src/histogram.cpp:42-50 | a slot is one wide or at most low edge / half-count wide |
| `SlotSpec.BucketIsHalvings` | src/histogram.cpp:66-69 | the leading-zero count of the masked value is how often it is halved |
| `SlotSpec.IndexOfDigits` | src/histogram.cpp:75-84 | the index computed by shifts is the slot |
| `SlotSpec.DigitsOfIndex` | src/histogram.cpp:86-91 | shifting an index's digits back gives the low edge of its slot |
| `SlotSpec.IndexInBounds` | src/histogram.cpp:54-63 | a value below the tracked range has a slot inside the array |
| `Histograms.CeilLog2` | src/histogram.cpp:13-18 | the smallest power of two that is at least the argument |
| `Histograms.Layout` | src/histogram.cpp:33-60 | the half-count is at least, and less than twice, ten to the digits; the ceiling is inside the tracked range, with no doubling to spare |
| `Histograms.LayoutUnique` | src/histogram.cpp:33-60 | so one ceiling and one number of digits have one layout |
| `Histograms.Histogram.EquivalentRange` | src/histogram.cpp:93-97 | the width of the value's slot, which is one or at most value / 10^digits |
| `Histograms.Histogram.IndexIsSlot` | src/histogram.cpp:66-84 | the bit arithmetic on any 64-bit word computes its slot, in bounds for every value up to the ceiling |
| `Histograms.Histogram.NegativeIsOutside` | src/histogram.cpp:66-84 | the bits of a negative value have a slot past the array |
| `Histograms.Histogram.LowestEquivalent` | src/histogram.cpp:99-102 | the low edge of the value's slot |
| `Histograms.Histogram.HighestEquivalent` | src/histogram.cpp:104-106 | the high edge of the value's slot |
| `Histograms.Histogram.RecordN` | src/histogram.cpp:108-116 | exactly one count grows; totals and extremes are those of the clamped and the raw value |
| `Histograms.Histogram.Record` | src/histogram.cpp:108-116 | the histogram stays the summary of everything it was told |
| `Histograms.Histogram.RecordCorrected` | src/histogram.cpp:118-127 | records the value and then the samples a stall swallowed |
| `Histograms.BackfillIs` | src/histogram.cpp:121-126 | those are the value less each whole number of intervals, down to the last that is at least one interval |
| `Histograms.Histogram.ValueAtRank` | src/histogram.cpp:134-143 | for every rank up to the count a sample of that rank exists among the clamped samples, and the result is the edge of its slot; the maximum when the rank is past the count |
| `Histograms.Histogram.CountAtOrBelow` | src/histogram.cpp:146-153 | how many samples are at or below the high edge of the value's slot; for a negative value every sample, because its index is past the array |
| `HistSpec.RankSlot` | src/histogram.cpp:134-142 | the slot where the running count first reaches a rank is the slot of the value that has that rank |
| `HistSpec.RankOfCount` | src/histogram.cpp:134-142 | every rank from one to the count belongs to some kept value |
| `HistSpec.SummaryConcat` | src/histogram.cpp:186-199 | totals and extremes of two logs together |
| `HistSpec.TotalsAre` | src/histogram.cpp:108-116 | the count is the number of samples told and the overflow the number of those above the ceiling |
| `HistSpec.ExtremesAre` | src/histogram.cpp:108-116 | maximum and minimum are kept values and bound all of them; the true maximum bounds every value told, unclamped, and is one of them or zero |
| `HistSpec.ClampedIsNearest` | src/histogram.cpp:108-116 | what is kept of a value is the nearest one the range has |
| `HistSpec.BelowIs` | src/histogram.cpp:129-150 | inside the range, the samples counted below x are those told below x |
| `HistSpec.CountIs` | src/histogram.cpp:108-116 | a slot's count is of the samples whose kept value lies between its edges |
| `Histograms.Histogram.Merge` | src/histogram.cpp:186-199 | afterwards the histogram summarises both logs: counts, total, maximum, true maximum and overflow exactly, the minimum dropping to the low edge of the other's least slot if that slot holds a sample, and to the other's minimum otherwise; so the minimum is the true one if and only if that slot is empty, ours was at most that edge, or the other's minimum is that edge |
| `Histograms.Histogram.MergeCounts` | src/histogram.cpp:188-191 | after the loop the counts are the sums, the extremes within both histograms' own, and the minimum at most the low edge of the other's least slot if that slot holds a sample, and otherwise above that slot unless ours was below |
| `Histograms.MergeLosesMin` | src/histogram.cpp:192-197 | two histograms, of one sample each, whose merge has a minimum below both |
| `Histograms.SameLogSameCounts` | src/histogram.cpp:186-199 | histograms of one layout told the same hold the same counts and totals, with minima in one slot |
| `Histograms.Histogram.Reset` | src/histogram.cpp:181-184 | as if nothing had been recorded |
| `Flow.EmittedIsAccepted` | include/lob/sim/flow.hpp:950-952 | every event the generator may emit, inside the window and the pool, is accepted by the book |
| `Flow.EmittedIsSensible` | include/lob/sim/flow.hpp:885-949 | knowing its own list and the last touch only, what the generator may emit makes sense to the book: a new id short of the opposite touch, or a resting order and at most its size |
| `Flow.AppliedAgrees` | include/lob/sim/flow.hpp:953-981 | after an accepted event, belief and book agree again on id, size, price and side |
| `Flow.FlowGenerator.Next` | include/lob/sim/flow.hpp:885-949 | for every sequence of draws, an event the generator may emit |
| `Flow.FlowGenerator.PriceFor` | include/lob/sim/flow.hpp:1520-1529 | the price never reaches the opposite touch last observed |
| `Flow.FlowGenerator.MakeAdd` | include/lob/sim/flow.hpp:1531-1538 | a positive size under a fresh id, short of the touch |
| `Flow.FlowGenerator.MakeOnExisting` | include/lob/sim/flow.hpp:1565-1589 | refers to a live order, cuts at most its size, replaces under a fresh id short of the touch |
| `Flow.FlowGenerator.MakeAggress` | include/lob/sim/flow.hpp:1543-1563 | a market order under a fresh id |
| `Flow.FlowGenerator.Remember` | include/lob/sim/flow.hpp:1591-1594 | the list and index gain exactly one order |
| `Flow.ForgetKeeps` | include/lob/sim/flow.hpp:1598-1606 | moving the last order into the hole and repairing its index loses exactly one order |
| `Flow.FlowGenerator.Forget` | include/lob/sim/flow.hpp:1598-1606 | swap-and-pop with the index repaired: exactly one order is gone and every other is still found |
| `Flow.FlowGenerator.OnApplied` | include/lob/sim/flow.hpp:953-981 | belief about every order after an event |
| `Flow.Turn` | include/lob/sim/flow.hpp:884-992 | one turn of the closed loop: the event makes sense to the book and is accepted inside the window and pool, and after any accepted event belief equals the book |
| `Flow.Drive` | include/lob/sim/flow.hpp:884-992 | for every length of run: the book ends where the stream drawn takes it, every event of it made sense to the book it met and was accepted, and belief equals the book; the loop breaks off only at an event outside the window or the pool |
| `Lines.LinesOfText` | src/line_reader.cpp:103-124 | splitting gives back the lines that were joined, and a last piece only if it is not empty |
| `Lines.TextOfLines` | src/line_reader.cpp:103-124 | every text is what its lines join to |
| `LineReaders.LineReader.Compact` | src/line_reader.cpp:79-82 | the partial line moves to the front unchanged, overlapping or not |
| `LineReaders.LineReader.Reserve` | src/line_reader.cpp:83 | growing the buffer keeps what it holds |
| `LineReaders.LineReader.Fill` | src/line_reader.cpp:73-101 | what is still to be yielded never changes, whatever the chunk |
| `LineReaders.LineReader.Next` | src/line_reader.cpp:103-124 | yields the first line of what is left and leaves exactly the others, false exactly when none is left |
| `LineReaders.LineReader.AllLines` | src/line_reader.cpp:103-124 | for every way of cutting a stream into chunks, the lines are the stream split on newlines |

## Left out

- OrderMaps.OrderMap.Insert: the hash is any function of the key; the mixing step itself is not modelled.
- OrderMaps.OrderMap.Probe: the three identical probe loops of find, insert and erase are one method here.
- OrderBooks.OrderBook.Add: 64-bit overflow of level totals and arrival ranks is not modelled, and the book's statistics counters are not kept.
- OrderBooks.OrderBook.constructor: levels, bit words, pool, free list and own orders are sequence fields, so capacity reservation and in-place element references are not captured; a window that is not a multiple of 64 is allowed.
- BookAudit.CheckInvariants: the checks are combined rather than returned early, and the text naming the first failure is not produced.
- Matching.MatchingEngine.Cross: fills are gathered during the sweep and appended to the log at its end; the exits for a non-positive front size and for a refused execution are shown never to be taken and so have no branch.
- Matching.MatchingEngine.SubmitLimit: the price-time list of the opposite side is a ghost argument; PriceTime is the only one there is, for every book.
- Simulators.Simulator.Turn: features, realised profit and the passive and aggressive counters are not kept, and the generator is replaced by an arbitrary event.
- Simulators.Simulator.RunActive: no general claim relates the agent's book to the exchange's once the agent has traded, because the loop then delivers the next event before the agent's own fills, and delivers events the exchange refused.
- Bitstamp.BitstampDecoder.DecodeLine: only the counters named in its contract are kept; timestamps are unbounded. Seeding from a snapshot and detecting precision are heuristics about data and are not modelled.
- Replays.StaysInStep: a feed in which an order is created twice, changes side or has a negative size is excluded; the decoder's window is the book's, not a disabled one.
- JsonSpec.FindsFirst: text is a sequence of characters without any encoding; escapes are kept raw, as the scanner keeps them; printed atoms are any run without structural characters, which includes every number and literal of the grammar.
- Json.SkipNest: brackets of the two kinds are counted together and not matched, as in the source.
- CaptureSpec.PrintedCarries: the layout printed leaves out members no reader looks at, such as `amount` and `datetime`; `OrderIsRead` is about every layout, with any other members.
- Chains.NoGapsIsWhole: lines whose ids are longer than 48 characters are left out, because only 48 are remembered and every such line counts as a gap.
- MdpSolve.Solve: arithmetic is over reals, so rounding, infinities and not-a-number are not modelled; the error bound and convergence are for rows that sum to exactly one, where validation allows 1e-6. Convergence is for tolerances above `Floor`; below it the tie tolerance could keep policies changing, and nothing is claimed.
- MdpSolve.Stochastic: the text naming the worst state-action is not produced; the parameter hash and the policy table's files are not modelled.
- Histograms.Histogram.ValueAtRank: the rank is an integer input; how a percentage becomes a rank, mean, standard deviation and text output are floating point and are not modelled.
- Histograms.Histogram.RecordN: a sample count is not negative.
- Histograms.Histogram.Merge: when the other histogram's total is zero nothing is merged, even if it was told of values zero times.
- Differential.Drive: own adds and cancels go to both books, where the original harness gives the naive book only those the fast one took; as both accept or refuse together this is the same stream.
- Flow.FlowGenerator.Next: draws are arbitrary rather than weighted, which includes every weighting; the queue-reactive process, reinitialisation and calibration are not modelled.
- Flow.Drive: aggressive events are not matched; under matching a partly consumed order keeps a stale believed size, so belief is not exact there.
- LineReaders.LineReader.Fill: the source of bytes is any finite sequence of non-empty chunks of at most 65536 characters; opening, decompression and closing are not modelled.
- Clocks, stopwatches, benchmarks, pools, strategies, feature statistics, bootstrap and the command-line programs are not modelled.
