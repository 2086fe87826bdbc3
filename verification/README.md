# Verified model of the velox trading core

This project models the trading core of velox in Dafny and proves what that core is for: a limit order book
kept in ring buffers, hash maps and incremental counters that behaves, in every state it can reach, like one
simple price-time list matched greedily; the matching engine, statistics and positions around it; the
reference-counted snapshots that readers take of it; and the market-data feed in front of it.

`dafny verify dfyconfig.toml` checks everything.

## How the files fit together

- `Orders.dfy`: orders, fills, 32-bit wrapping counters, and the slot a queued order stands for.
- `FlatBook.dfy`: the specification. Each side is a flat list of live orders, best price first and oldest
  first within a price. `Greedy` matches an incoming order against the front of the other list, `Insert`
  rests what is left, `WithoutId` cancels. Levels, rings, maps and counters do not appear.
- `FlatRuns.dfy`: what that specification means, without the algorithm (`Fair`), and what holds over every
  run of submissions and cancels: sorted, uncrossed, price-time order, nothing lost.
- `Rings.dfy`: what the operations do to the ring slots of each level, cancelled ones included, as functions.
- `PriceLevels.dfy`: the 128-slot ring of one price with lazy deletion.
- `OrderBooks.dfy`: the book itself. `Valid` collects the invariants that span its parts: sorted and
  uncrossed sides, one price map for both sides holding exactly their levels, an id index true for every live
  order, exact ring sizes, level totals, depths, best prices. `Flat(isBid)` is the side's flat list, `Rings(isBid)`
  the same side slot by slot; every operation says what it makes of both.
- `Scenarios.dfy`: runs of a new book that show what can come about.
- `Engine.dfy`: the matching engine. A ghost history of submissions and cancels ties the state of the whole
  engine to a run of the flat book, and every position to the orders that made it.
- `Concessions.dfy`: what it costs that makers are booked at their own price and takers at their limit.
- `Positions.dfy`: weighted-average positions; the profit-and-loss identity, the drift of the average, and when
  the average is exact and 64 bits are enough.
- `Snapshots.dfy`: the publish and acquire protocol as a state machine over atomic steps, with any number of
  readers and a capture that overwrites a node one cell at a time.
- `Captures.dfy`: what a capture of a valid book contains.
- `Readings.dfy`: the protocol's cells are those of captures, so what a reader reads is one faithful picture.
- `Feeds.dfy`: the framed byte stream, its parser and its writer.

Classes keep the source's fields and update them in place. Ghost fields (`queue`, `slots`, `known`, `history`,
`accepted`, `deals`, `written`) record what a proof needs to remember. Quantities and depth counters are 32 bits
wide and wrap, so no claim about them rests on sums staying small unless it says so.

Where the source's comments and its code differ, the model follows the code: the price recorded in a fill is the
incoming order's (`src/book/price_level.cpp:62`), although the comment above it speaks of the resting order's; and
the position getters trim a copy of the symbol and then look up the untrimmed one
(`src/risk/position_manager.cpp:81-124`), which `GettersFindIff` and `PaddedBuyIsMissed` make exact.

Where the code does less than one would wish, the exact condition is proved. A ring with all 128 slots occupied
reads as empty, so in a book in which no ring was overfilled the match loop runs forever exactly when it comes to
a full one (`JamsIff`, `SweepTurns`, `Sweep`; `JamArises` is such a book), and a level that was once full is never
removed (`NeverEmptyAgain`). The weighted average is exact only while its sum is in unsigned 64-bit range
(`AverageExactIff`), which one market buy is enough to leave (`AverageAfterMarketBuy`). Total profit fits 64 bits
over all histories with given volumes exactly as `SumsFitIff` says. A best price is that of a live order exactly
when the front level still holds one (`BestIsLiveIff`, `BestReadableIff`; `DrainedFront` is a book where it does
not). The byte behind a feed buffer matters exactly when the frames end in one of length 2 (`BeyondIgnoredIff`). And
an update is skipped exactly when its scan finds every other node pinned (`SkippedIff`, `TwoHandlesSkip`).

## Model

| member | source | states |
|---|---|---|
| FlatBook.GreedyAcross | src/book/order_book.cpp:127-151 | emptying or exhausting the front level first and carrying on behind it is greedy matching on the concatenated list |
| FlatBook.AppendView | src/book/order_book.cpp:154-164 | joining the back of the level of its price is inserting the order in the flat list behind everything not worse |
| FlatBook.DropEmptyLevel | src/book/order_book.cpp:146-150 | a level without live orders can leave the vector without the flat list noticing |
| FlatRuns.GreedyIffFair | src/book/price_level.cpp:42-86 | an outcome is the greedy one if and only if its fills run down a prefix of the list in order, at a price both sides accept, all but the last exhausting their maker, with nothing lost and nothing acceptable left while quantity is wanted |
| FlatRuns.RunSound | src/book/order_book.cpp:61-181 | after any run of submissions and cancels both lists are sorted best first, hold only open quantity, and no bid reaches an ask |
| FlatRuns.RunPriceTime | src/book/order_book.cpp:114-181 | after any run, orders at one price stand in order of arrival |
| FlatRuns.SubmitConserves | src/book/order_book.cpp:114-181 | fills plus rest is what was wanted; one side loses exactly the fills, the other gains exactly the rest |
| FlatRuns.NothingWithinLimit | src/book/order_book.cpp:127-131 | when a submission leaves quantity open, every order left on the other side is priced beyond its limit |
| PriceLevels.PriceLevel.constructor | include/velox/book/price_level.hpp:12-44 | a new level is an empty valid ring |
| PriceLevels.PriceLevel.AddOrder | src/book/price_level.cpp:17-25 | appends the live order to the level's queue; the ring stays consistent exactly when a slot was free, and otherwise the order overwrites the oldest slot |
| PriceLevels.PriceLevel.RemoveOrder | src/book/price_level.cpp:27-37 | the live list loses exactly this order and the total its open quantity; its slot stays in place, dead, unless it is at the head of a ring that is not full, and then it goes with every dead slot behind it, so that the ring is empty or has a live head; an inactive order changes nothing |
| Rings.RevokedIs | src/book/price_level.cpp:30-36 | what a cancel leaves of the slots is the ring with this slot dead, or, at the head, that without exactly the dead slots before the next live one |
| Rings.ConsumedIs | src/book/price_level.cpp:42-86 | what matching leaves of the slots is the back of the ring, its first slot at most reduced; a dead slot comes first only right behind one that was used up |
| PriceLevels.PriceLevel.Advance | src/book/price_level.cpp:103-116 | the queue and the slots lose exactly a run of dead slots at the head: the live list is unchanged and a non-empty ring then has a live head; in a full ring head meets tail and nothing moves |
| PriceLevels.PriceLevel.FillNext | src/book/price_level.cpp:50-90 | after advance the head is always live, so the skip branch is dead; each turn makes the fill due next and either exhausts the incoming order or shrinks the ring |
| PriceLevels.PriceLevel.MatchOrder | src/book/price_level.cpp:39-91 | makes exactly the fills of taking from the front of the live list, and leaves exactly the slots that consuming the wanted quantity leaves: dead ones behind the last fill stay; ends with the incoming order exhausted or the ring empty; against a full ring it changes nothing at all |
| PriceLevels.PriceLevel.LiveInQueue | src/book/price_level.cpp:103-116 | the live list shows true order, price and open quantity of queued, active orders |
| PriceLevels.SizeCountsLaps | src/book/price_level.cpp:17-25 | over any run of pushes and pops, size is the distance from head to tail and 128 for every time the tail has come round to the head |
| PriceLevels.NeverEmptyAgain | include/velox/book/price_level.hpp:26 | a level reads as empty exactly when head meets tail and never did so from behind; once 128 slots were occupied its size is at least 128 for ever, whatever is added or popped |
| OrderBooks.LowerBound | src/book/order_book.cpp:194-200 | binary search finds the first level that does not beat the price |
| OrderBooks.ShapedInsert | src/book/order_book.cpp:189-203 | inserting a level with a price clear of the other side keeps both sides sorted and apart and the map faithful |
| OrderBooks.ClearNeeded | src/book/order_book.cpp:189-203 | a level can stand on a side of a sorted, uncrossed book only if its price is clear of the other side |
| OrderBooks.OrderBook.constructor | src/book/order_book.cpp:7-10 | a new book is valid and empty, with the sentinel best prices |
| OrderBooks.OrderBook.Match | src/book/order_book.cpp:114-181 | for every order that does not jam: the fills, the other side's list and the open quantity are those of greedy matching on the flat list; the rest is inserted at its priority; the rings of both sides are exactly what the sweep and the rest make of them, slot by slot; every maker gave exactly what the fills say; index, sequence, result and every invariant follow |
| OrderBooks.OrderBook.Sweep | src/book/order_book.cpp:127-151 | when the order does not jam, the level loop terminates and its fills and residue are those of greedy matching; it stops only when the order is exhausted or the best level is beyond its limit |
| OrderBooks.OrderBook.SweepFront | src/book/order_book.cpp:128-150 | each turn removes a level or finishes the order, keeping both depths exact through the wrapped difference of level totals; whether the order jams never changes, and a turn on a full level is a fixed point: no field of the book, the level or any order moves |
| OrderBooks.JamsIff | src/book/order_book.cpp:127-150 | an order jams exactly when some level within its limit has all slots occupied and all better levels together hold less than the order wants |
| OrderBooks.OrderBook.SweepTurns | src/book/order_book.cpp:127-151 | for a jammed order, after any number of turns the loop's guard still holds, its limit does not stop it, and it is still jammed: the loop never ends |
| OrderBooks.OrderBook.FullLevelJams | src/book/order_book.cpp:127-150 | when a full level stands on the other side within its limit, an order that wants more than that whole side holds jams |
| Scenarios.JamArises | src/book/order_book.cpp:127-150 | 128 one-lot sales at one price of a new book, added one by one, and a buy of 129 at that price: the book is valid and the buy jams |
| OrderBooks.OrderBook.AddOrder | src/book/order_book.cpp:16-59 | a non-crossing order is inserted at its priority, indexed and counted, takes exactly one slot at the back of the ring of its price, started at its place if there is none, with all invariants kept |
| OrderBooks.OrderBook.CancelOrder | src/book/order_book.cpp:61-112 | both flat lists lose exactly the order with this id and nothing else, whether the entry is live, stale on a reused price or stale without a level; the rings of both sides are exactly what revoking one slot makes of them; result, index, status and sequence are exact |
| FlatRuns.WithoutIdKeeps | src/book/order_book.cpp:88-106 | a cancel keeps exactly the orders of another id |
| OrderBooks.OrderBook.ForgetStale | src/book/order_book.cpp:81-84 | an entry whose price has no level is a filled order: forgetting it changes nothing else |
| OrderBooks.OrderBook.RemoveLevel | src/book/order_book.cpp:205-214 | takes an emptied level out of its side and the map, wherever it stands; flat lists and depths do not change |
| OrderBooks.OrderBook.InsertLevel | src/book/order_book.cpp:189-203 | files the level at its sorted place on its side and in the map, and nothing else moves |
| OrderBooks.OrderBook.OwnLevel | src/book/order_book.cpp:183-187 | the side-blind lookup returns a level of the order's own side whenever the price is clear of the other side |
| OrderBooks.OrderBook.IndexIsFlat | src/book/order_book.cpp:43-44 | an indexed order has open quantity if and only if the flat list of its side holds it at its true price and quantity |
| OrderBooks.OrderBook.FlatMember | src/book/order_book.cpp:173-174 | every order in a flat list is indexed under its id, active, on its own side, and shown with its true price and quantity |
| OrderBooks.OrderBook.NeverCrosses | src/book/order_book.cpp:127-175 | every bid level is strictly below every ask level, drained levels included, so best bid is below best ask and each price belongs to one side |
| OrderBooks.OrderBook.BestIsLiveIff | src/book/order_book.cpp:216-228 | the best price of a side is that of its best live order if and only if the front level still holds a live order |
| OrderBooks.OrderBook.BestReadableIff | src/book/order_book.cpp:216-228 | if the front level's total is not 0 the best price is a live order's; and only then, while the level holds less than 2^32 |
| Scenarios.DrainedFront | src/book/order_book.cpp:61-181 | two bids at 100 and one at 99, the second cancelled and the first sold to: the book is valid, best bid is 100 and the best live bid is at 99 |
| Scenarios.CancelBoth | src/book/order_book.cpp:100-111 | two bids at one price, the second cancelled and then the first: no level is left and the best bid is the sentinel 0 |
| OrderBooks.OrderBook.UpdateDepth | src/book/order_book.cpp:230-246 | recomputing the depths from the levels gives the total open quantity of each flat list, which is what the incremental counters already held |
| OrderBooks.OrderBook.Relabelled | src/matching/matching_engine.cpp:101-110 | moving a resting order between NEW and PARTIAL keeps every invariant of the book |
| Engine.MatchingEngine.constructor | src/matching/matching_engine.cpp:7-14 | an engine starts valid with an empty history |
| Engine.MatchingEngine.ProcessOrder | src/matching/matching_engine.cpp:33-111 | a rejected order changes only its status and the reject count; any other adds one submission to the history, at its own price or, a market order, at 2^63 - 1 or 0; left with open quantity it finds nothing on the other side within its limit, so a market buy nobody at all and a market sale nobody at 0 or above; everybody gets exactly what the flat book makes of it, and the whole invariant is kept: the book is the flat run of the history, filled buys equal filled sells equal the quantity of all fills, each symbol's account tallies its orders, orders_matched counts every fill, and a symbol that all orders trade has lost exactly what takers conceded |
| Engine.MatchingEngine.Admit | src/matching/matching_engine.cpp:68-110 | the taker keeps the rest the flat book leaves it, each accepted order is filled by exactly what the fills take from it, and the positions are booked once for each maker at the maker's own price and once for the taker at its effective price |
| Engine.MatchingEngine.Execute | src/matching/matching_engine.cpp:68-72 | the match is one step of the flat book; every fill is against a known order of the other side and takes something |
| Engine.MatchingEngine.Reprice | src/matching/matching_engine.cpp:57-66 | market orders become limit orders at the extreme price of their side; the book is not touched |
| Engine.MatchingEngine.RecordMakers | src/matching/matching_engine.cpp:74-86 | the loop books every fill once, in order, on its maker's position at the maker's own price |
| Engine.MatchingEngine.Settle | src/matching/matching_engine.cpp:74-99 | positions tally makers and taker; orders_matched grows by exactly the number of fills, so counting 1 for no fills never happens |
| Engine.MatchingEngine.Conclude | src/matching/matching_engine.cpp:101-110 | the final status is FILLED, PARTIAL or NEW by what was filled, and the book stays valid |
| Engine.MatchingEngine.RunMatchCycle | src/matching/matching_engine.cpp:25-31 | the queue, of any length, is worked off in order of arrival: the history grows by exactly the submissions that pass, and every order is either accepted or counted as rejected |
| Engine.MatchingEngine.PassedAre | src/matching/matching_engine.cpp:28-30 | the orders accepted from a queue are those that pass, in order of arrival: the queue can be cut anywhere |
| Engine.MatchingEngine.SubmissionsAre | src/matching/matching_engine.cpp:28-30 | the same of the submissions the history grows by |
| Engine.MatchingEngine.StillQueued | src/matching/matching_engine.cpp:25-31 | what the queue needs is kept by each processed order: for those whose flat remainder will rest, ids without live order, and at each price occupied slots plus such orders still to come below 128 |
| Engine.MatchingEngine.CancelOrder | include/velox/matching/matching_engine.hpp:28-30 | a cancel is one cancel step of the flat history; positions, fills and counters are untouched |
| Engine.MatchingEngine.PriceTimeAlways | src/matching/matching_engine.cpp:33-111 | in every state of the engine the book is uncrossed and in price-time order of its own history |
| Engine.MatchingEngine.JoinedSides | src/matching/matching_engine.cpp:88-94 | one match raises the filled quantity of both sides by the same traded quantity |
| Engine.MatchingEngine.PositionOf | src/matching/matching_engine.cpp:113-125 | a symbol's account nets its filled buys less its filled sells, its counters are those sums modulo 2^32, and its position is what 64 bits keep of that account |
| Engine.MatchingEngine.NetsToZero | src/matching/matching_engine.cpp:74-94 | when all accepted orders trade one symbol its position nets to zero and bought equals sold equals the quantity of all fills |
| Engine.MatchingEngine.OneSymbolLoses | src/matching/matching_engine.cpp:74-94 | when all accepted orders trade one symbol, its cash is minus the sum over all fills of limit-to-maker distance times quantity: never positive, zero if and only if every fill was at its maker's price, and its total profit is the same at every mark, in 64 bits or exactly as far as it fits |
| Concessions.NothingConcededIff | src/matching/matching_engine.cpp:74-90 | over any history, nothing is conceded if and only if every fill was at its maker's own price |
| Concessions.CashOfMatch | src/matching/matching_engine.cpp:74-90 | booking one match costs the symbol exactly what its taker conceded |
| Concessions.DealsCompose | src/matching/matching_engine.cpp:75-86 | makers are booked fill after fill, in order, each once at its price |
| Engine.TakenOnIs | src/matching/matching_engine.cpp:75-86 | summing what the fills take order by order is summing the fills |
| Positions.TrimEnd | src/risk/position_manager.cpp:14-18 | trimming changes a symbol exactly when it ends in a blank |
| Positions.TrimSpaces | src/risk/position_manager.cpp:14-18 | a symbol that does not end in a blank is what is left of it with any number of blanks behind it |
| Positions.TrimSame | src/risk/position_manager.cpp:14-23 | two symbols share a position exactly when they differ only in blanks at the end |
| Positions.PositionManager.UpdatePosition | src/risk/position_manager.cpp:11-75 | a positive fill updates exactly the position of the trimmed symbol, in 64-bit steps that come to the exact account narrowed once; a zero fill changes nothing, not even by creating a position |
| Positions.PositionManager.GettersFindIff | src/risk/position_manager.cpp:81-124 | a getter answers with what was traded in the symbol if and only if the symbol does not end in a blank, or the answer is zero anyway; asked with a trailing blank it always answers zero |
| Positions.PaddedBuyIsMissed | src/risk/position_manager.cpp:81-88 | after a buy booked for a symbol padded with blanks, asking with that symbol finds 0 while the position holds the quantity |
| Positions.PositionManager.TotalPnlIs | src/risk/position_manager.cpp:99-124 | long, short and flat cases, each computed in 64 bits, return what 64 bits keep of one formula on the exact account |
| Positions.PositionManager.PnlAlways | src/risk/position_manager.cpp:119-124 | whatever was booked, the getter returns what 64 bits keep of cash flow plus position at the mark plus accumulated rounding plus restatements, and exactly that if and only if it fits |
| Positions.PnlIdentity | src/risk/position_manager.cpp:33-73 | the same identity for any run of buys and sells, also when the counter of bought quantity has wrapped |
| Positions.PnlBuy | src/risk/position_manager.cpp:35-51 | a buy changes the gap between profit and cash by its rounding and by the change of average times what was sold before, at every mark alike |
| Positions.PnlSell | src/risk/position_manager.cpp:53-74 | a sell never changes that gap |
| Positions.Counters | src/risk/position_manager.cpp:35-51 | net position is exact and the traded counters are the volumes modulo 2^32 |
| Positions.AverageExactIff | src/risk/position_manager.cpp:41-47 | for every average, price and quantity, the unsigned average equals the true weighted average rounded down if and only if the weighted sum is at least 0 and below 2^64 |
| Positions.AverageOfWrapped | src/risk/position_manager.cpp:41-47 | in range or not, the average is the sum modulo 2^64 divided by the count and rounded down |
| Positions.AverageAfterMarketBuy | src/risk/position_manager.cpp:41-47 | a first buy at INT64_MAX, as a market buy is booked, and a second buy give an average that is not the true one |
| Positions.RealizedBound | src/risk/position_manager.cpp:64-69 | with prices in [0, hi], fewer than 2^32 bought and hi times the traded volume below 2^63, the average stays in [0, hi] and realized profit within hi times the volume sold |
| Positions.MoneyFits | src/risk/position_manager.cpp:90-117 | then realized profit is within hi times the volume sold, unrealized profit within hi times the open volume, and each fits 64 bits at every mark in range |
| Positions.SumsFitIff | src/risk/position_manager.cpp:119-124 | their sum fits, over all such histories that bought B and sold S and at every mark in range, if and only if B is 0, or B is at least S, or hi times (2S - B) is below 2^63 |
| Positions.CoveredShort | src/risk/position_manager.cpp:53-74 | selling S at the top price, buying B back there and marking at 0 is a history that overflows when hi times (2S - B) does |
| Positions.AverageDrift | src/risk/position_manager.cpp:35-51 | after k buys of B in all within a price range, the average lies in the range and understates the cost by between 0 and (k-1)(B-1) |
| Snapshots.AlwaysInv | src/book/book_snapshot.cpp:24-85 | the protocol invariant holds after every interleaving |
| Snapshots.NeverOverwritten | src/book/book_snapshot.cpp:75-85 | no step changes the current node or a node that a reader holds |
| Snapshots.CountsAndImages | src/book/book_snapshot.cpp:36-66 | each reference count is the number of readers between increment and decrement, and a held node shows one complete published image, never a torn one |
| Snapshots.Released | src/book/book_snapshot.cpp:51-66 | in any reachable state a release, or the undo of a lost race, takes the reader off its node: that count is one lower, the reader away, and nothing else changes |
| Snapshots.ReleaseAlone | src/book/book_snapshot.cpp:36-66 | acquired and released with nobody in between, the counts are what they were |
| Snapshots.RetryAlone | src/book/book_snapshot.cpp:37-53 | a reader that finds its node no longer current undoes its increment and, with nobody in between, then holds what is current |
| Snapshots.ActiveReadersAre | src/book/book_snapshot.cpp:68-73 | active_readers is the number of readers between increment and decrement |
| Snapshots.HeldUntilReleased | src/book/book_snapshot.cpp:47-49 | what get_snapshot returned stays the same image until it is released, whatever runs in between |
| Snapshots.NeverBackwards | src/book/book_snapshot.cpp:36-54 | successive snapshots of one reader never go back in publication order or book sequence number |
| Snapshots.LaterValidation | src/book/book_snapshot.cpp:47-49 | any reader's later validation returns nothing older, in publication or sequence number, than what any reader got before |
| Snapshots.RetriesBounded | src/book/book_snapshot.cpp:51-53 | a reader loses the race at most as often as the writer has published |
| Snapshots.UpdatesCounted | src/book/book_snapshot.cpp:30-32 | update_count is the number of publications |
| Snapshots.NoSkipAlone | src/book/book_snapshot.cpp:24-33 | with at most one reader attempt or handle in flight no update is skipped |
| Snapshots.SkippedIff | src/book/book_snapshot.cpp:75-85 | in any interleaving, an update is skipped if and only if its scan ends having found each node but the current one pinned at the moment it looked |
| Snapshots.UpdateAlone | src/book/book_snapshot.cpp:24-33 | an update that runs alone is skipped if and only if every node but the current one has a reference; otherwise the first free node becomes current with exactly the image offered and nothing else changes |
| Snapshots.TwoHandlesSkip | src/book/book_snapshot.cpp:75-85 | a run from the start: one reader keeps the initial node, another the next published, and the third update is skipped, so the bound of one reader is tight |
| Captures.CaptureSide | src/book/book_snapshot.cpp:113-124 | a side of the snapshot shows the first levels that fit, in order, and is cleared behind them |
| Captures.Capture | src/book/book_snapshot.cpp:87-137 | all captured fields are those of the book, on both sides |
| Captures.RowsOrdered | src/book/book_snapshot.cpp:113-136 | captured rows are strictly ordered, best first |
| Captures.RowsMatchDepth | src/book/book_snapshot.cpp:95-136 | captured quantities sum to the depth counter modulo 2^32 when every level fits; below 2^32 they never exceed it and equal it when every level fits |
| Captures.SpreadPositive | src/book/book_snapshot.cpp:97-99 | the quoted spread of a valid book is positive, and fits 64 bits when prices are not negative |
| Captures.CaptureIsFaithful | src/book/book_snapshot.cpp:87-137 | a capture of a valid book is faithful on its own: both sides ordered and uncrossed, row sums agreeing with the depths, best prices and spread consistent |
| Readings.HeldIsFaithful | src/book/book_snapshot.cpp:36-54 | in any interleaving, a snapshot that a reader holds and finds valid is the cells of exactly one picture, and that picture is a faithful one |
| Feeds.BigDigits | src/feed/feed_handler.cpp:39-54 | reading back n big-endian bytes of a number gives it modulo 256^n |
| Feeds.ReadBig | src/feed/feed_handler.cpp:64-67 | the shift loop reads the field and never outgrows its width |
| Feeds.ReadSymbol | src/feed/feed_handler.cpp:69-79 | the symbol is the field up to a NUL, with blanks trimmed only if it fills all six bytes |
| Feeds.SymbolSurvivesIff | src/feed/feed_handler.cpp:69-79 | a symbol comes back as written if and only if it has no NUL, at most six bytes, and is not six bytes ending in a blank |
| Feeds.PaddedSymbolRead | src/feed/feed_handler.cpp:69-79 | a symbol padded with blanks to the width of its field is read without any of them |
| Feeds.FeedHandler.ParseAddOrder | src/feed/feed_handler.cpp:56-107 | a frame of at least 35 bytes fires one add callback with the fields at their places; a shorter one is one error |
| Feeds.FeedHandler.ParseOrderCancel | src/feed/feed_handler.cpp:109-125 | a frame of at least 23 bytes fires one cancel callback; a shorter one is one error |
| Feeds.FeedHandler.ParseOrderReplace | src/feed/feed_handler.cpp:127-150 | a frame of at least 35 bytes fires one modify callback; a shorter one is one error |
| Feeds.FeedHandler.ParseOrderExecuted | src/feed/feed_handler.cpp:152-173 | a frame of at least 27 bytes fires one trade callback; a shorter one is one error |
| Feeds.ReadLengths | src/feed/feed_handler.cpp:57-173 | frames of kinds A, F and U are read from 35 bytes on, X from 23, E and C from 27; a shorter one is exactly one error, another kind nothing |
| Feeds.AddFields | src/feed/feed_handler.cpp:64-93 | an add frame with time stamp, id, price and quantity at bytes 3, 11, 26 and 30 fires exactly these, and a buy exactly for B at 25 |
| Feeds.CancelFields | src/feed/feed_handler.cpp:115-122 | a cancel frame with the id at byte 11 fires exactly this cancel |
| Feeds.ReplaceFields | src/feed/feed_handler.cpp:133-147 | a replace frame with id, quantity and price at bytes 11, 27 and 31 fires exactly these |
| Feeds.ExecutedFields | src/feed/feed_handler.cpp:158-170 | an executed frame with id and quantity at bytes 11 and 19 fires exactly these |
| Feeds.FramedIff | src/feed/feed_handler.cpp:182-187 | a buffer starts with a frame exactly when its first two bytes spell, big-endian, a length from 2 to the bytes there are |
| Feeds.FeedHandler.Process | src/feed/feed_handler.cpp:175-212 | the loop terminates; callbacks and counters grow by what the buffer amounts to frame by frame |
| Feeds.FramingComposes | src/feed/feed_handler.cpp:175-212 | whole frames followed by anything can be processed in one call or in two, with the same callbacks and counters |
| Feeds.BeyondIgnoredIff | src/feed/feed_handler.cpp:189 | the byte behind the buffer does not matter if and only if the complete frames do not end, at the end of the buffer, in one of length 2 |
| Feeds.OneFramingError | src/feed/feed_handler.cpp:184-187 | a call handles a maximal run of whole frames and then reports at most one framing error, exactly when two or more bytes are left that start no frame |
| Feeds.OncePerFrame | src/feed/feed_handler.cpp:191-209 | every callback is one counted message and no frame counts twice |
| Feeds.RoundTrip | tools/create_itch.cpp:9-56 | processing any list of written messages fires their callbacks in order, counts each, and reports no error |
| Feeds.RoundTripIff | tools/create_itch.cpp:9-56 | the callbacks carry exactly what was meant if and only if every price fits 32 bits and every symbol survives |
| Feeds.FaithfulIff | tools/create_itch.cpp:19-27 | the same, message by message |
| Feeds.SampleWriter.PutBig | tools/create_itch.cpp:19-20 | storing shifted and masked bytes spells the number most significant byte first |
| Feeds.SampleWriter.PutSymbol | tools/create_itch.cpp:22-23 | the field holds as much of the symbol as fits and NULs behind it |
| Feeds.SampleWriter.WriteAddOrder | tools/create_itch.cpp:9-39 | the file grows by exactly the 35-byte frame of the message |
| Feeds.SampleWriter.WriteCancelOrder | tools/create_itch.cpp:41-56 | the file grows by exactly the 23-byte frame of the message |
| Feeds.SampleAdd | tools/create_itch.cpp:9-39 | one add frame, byte for byte |
| Feeds.SampleCancel | tools/create_itch.cpp:41-56 | one cancel frame, byte for byte |

## Left out

- AddOrder: it does no matching, so it is stated for an order that does not cross the other side and has open quantity; `ClearNeeded` shows that a crossing one cannot leave the sides apart. With no open quantity the source would file an empty level, which is not modelled.
- MatchingEngine.constructor: asks for a position manager without deals, as its own constructor makes it; engines that share one manager are not modelled.
- Match: asks for an active order new to the book that does not jam (`JamsIff`); on one that does, the source never returns. Only if matching leaves the order open quantity, its id must not be a live order's and the level of its price must have a free ring slot; `PriceLevel.AddOrder` states what the 129th order does to the ring and `NeverEmptyAgain` what its size does from then on; matching in an overfilled ring is not modelled.
- ProcessOrder: asks the same of an order that passes, and that every order arrives as its client made it (status NEW, nothing filled).
- Admit: asks the same, of an order at its effective price.
- Execute: asks the same.
- RunMatchCycle: asks that at each price the occupied slots and the orders that will rest there stay below 128, and that no order that will rest has the id of a live order or of another such one; the source checks neither.
- Capture: the symbol, the time stamp (always 0) and the floating-point mid price are not captured; the spread is an exact integer.
- UpdatePosition: where signed 64-bit arithmetic overflows, the source's result is undefined in C++; the model takes what two's complement keeps.
- AverageDrift: is stated for non-negative prices and weighted sums below 2^64, where the unsigned division does not wrap.
- HeldIsFaithful: each update is offered as the cells of a capture; the writer owns the book, so the book stands still while its cells are copied.
- NoSkipAlone: interleavings are sequentially consistent; weak memory ordering is not modelled.
- Sequence numbers, statistics counters and reference counts are unbounded naturals.
- The risk manager is a verdict per order; the execution gateway is a sink that is not modelled.
- The lock-free queue is a plain sequence; its capacity and failure to push are not modelled.
- Null orders, a missing position manager, memory release, order pooling and time stamps of orders.
- `set_market_price`, `head` and `tail` of a level, `mid_price`, and resetting the position manager.
- `SymbolEngine`, the FIX encoder, the simulator, file reading and the command line.
- IOC and FOK orders are matched like limit orders, because nothing in the engine treats them otherwise.
