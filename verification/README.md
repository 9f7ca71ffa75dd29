# A verified model of the exchange core

The exchange is a deterministic state machine: an ordered log of commands goes in, and
sequence-numbered batches of events come out. This project models it in Dafny, in four layers, and
proves the global properties that the code relies on and never checks.

1. **Matching and money.** `Matching`, `BookSpec`, `LedgerSpec` and `EngineSpec` are the simple form:
   one market is two priority-ordered sequences, a ledger is a map of integer balances, a command is a
   function on the engine's state. `OrderBooks`, `Ledgers` and `Engines` are the form the program has:
   level maps with FIFO queues, an id index, dirty sets, objects updated in place by nested loops.
   Every method of the second form is proved equal to the first. `Reserves`, `PlaceProof`,
   `EngineInv`, `Overflow` and `LevelBounds` prove the invariants: each reserve is exactly the sum of the account's
   resting commitments, no release fails, no unchecked u64 operation overflows, money is conserved.
2. **Indexes and identity.** `Levels`, `Routing` and `DedupSpec`/`Dedups`: the order index, the
   order-to-market route and the bounded idempotency window against their simple meanings.
3. **Runs and readers.** `Runs` folds the engine over any command log. `Lifecycle` follows each order
   through its events, `Accounts` explains every holding by deposits, withdrawals and published trades.
   `Replies` says what each command is answered and when, `BatchLaws` what a batch contains, `RowLaws`
   what every published event says about the orders it names.
   `Streams`, `Projection`, `Tables`, `Candles` and `Agreement` are the readers of
   the event stream: the API's price-level book and the database writer's four tables, with agreement
   and replay proofs for every run. `FirstBatch` is about the batch a client of a fresh projection
   drops, and `Witnesses` holds the runs at which a promise fails.
4. **Log, snapshot, trim, recover.** `Recovery` and `EventLog` are the engine's process as a transition
   system with crash steps, over any deterministic machine; `Durability` puts the engine in it.
   `Readers` is the protocol by which two readers of `events` let it be trimmed. `Entries` are stream
   entries that may not parse, `Text` has the id formats both rely on.

## Where the code and its promises part

Each of these is proved, with the exact condition under which the promise holds.

- **Gaps in `events`.** `src/engine.rs:401-404` promises contiguous numbers for consumers that detect
  gaps. Recovery replays in silence (`src/runtime.rs:57-58`), so a batch that was not yet in the stream
  when the process went down, or whose command was logged while it was down, never appears.
  `EventLog.NoGapIff` names the step that loses it, `Durability.EngineCanSkipANumber` is a run with two
  deposits and one crash.
- **Rows the writer never writes.** `src/bin/db_writer.rs:424-425` says a crash before the
  acknowledgement redelivers the batch, but the loop only reads entries never delivered before
  (`src/bin/db_writer.rs:383`). `Readers.NothingMissedIff` says exactly when rows are missing,
  `Readers.WriterCanMiss` shows it in three steps.
- **Bids at price zero** reserve nothing, so the size resting at that level is not bounded by the
  ledger; summing it can exceed u64. `Overflow.LevelsFitIff` says for which order,
  `LevelBounds.LevelsFitThroughoutIff` for which logs, `Witnesses.LevelCanOverflow` gives one.
- **The self-trade scan with size zero** can refuse an order that could not trade at all
  (`Matching.MeetsOwnOfEmptyTaker`, `Witnesses.SizeZeroIsRefused`); for any positive size it is exact.
- **A fresh projection** reports sequence 0, which is also the number of the first batch, so a client
  following the documented procedure drops that batch. It matters exactly when that batch is an order
  resting at bid price zero (`FirstBatch.FreshSnapshotOverRuns`, `Witnesses.FreshClientCanMiss`).
- **Candle time.** `src/bin/db_writer.rs:145-152` says the time comes from the stream entry, but the id
  that reaches that code is `seq:index`, which has no milliseconds (`Text.RowIdHasNoMillis`), so the
  writer's own clock is used. The model takes the time as an input. Prices and quantities are cast to
  signed columns, exactly when they are at most the signed maximum (`Candles.CastIsExactIff`).

Assumption on the outside world: net deposits of each currency fit in u64 (`SupplyFits`, tied to the log
by `Durability.SupplyFitsIff`). A missing balance row means zero, because failed operations may leave
zero rows behind.

## Model

| member | source | states |
|---|---|---|
| `Matching.MatchWalks` | src/book.rs:163-252 | a match trades with the front makers in order, each at the maker's own price and within the taker's limit; all but the last are filled completely, and each maker's update gives what it has filled, what remains, and filled iff nothing does |
| `Matching.MatchStops` | src/book.rs:163-187 | matching stops only when the taker is filled, the other side is empty, or its best price is beyond the taker's limit |
| `Matching.MatchConserves` | src/book.rs:189-252 | what leaves the resting side shows up in the trades, for volume, quote worth, committed funds, level size and the size of any one order |
| `Matching.TakerConserves` | src/book.rs:189-199 | the taker's fills plus its remainder are its size |
| `Matching.BuyCostIsWorthOfTrades` | src/book.rs:324-340 | the look-ahead cost equals the worth of the trades the market bid then makes, even when asks run out |
| `Matching.MeetsOwnIsExact` | src/book.rs:344-378 | for a positive size the scan says yes iff matching would produce a self-trade |
| `Matching.MeetsOwnOfEmptyTaker` | src/book.rs:351-366 | for size zero nothing trades, and the scan says yes iff the caller's own crossing order is at the front |
| `Witnesses.SizeZeroIsRefused` | src/engine.rs:161-163 | a run in which an order of size zero is answered as a self-trade although its match has no trades |
| `BookSpec.AddOrderKeepsInv` | src/book.rs:144-319 | placing keeps a book uncrossed, in price-time order, with live orders and distinct ids |
| `BookSpec.PriceTimePriority` | src/book.rs:163-252 | every trade is at its maker's price and within the taker's limit, and every cheaper ask, dearer bid or earlier order at the same price was filled completely by an earlier trade |
| `BookSpec.StopsOnlyWhenDone` | src/book.rs:163-187 | if the taker is not filled it is a limit order and every price left on the other side is beyond its limit; a market order stops only when that side is empty |
| `BookSpec.DropKeepsInv` | src/book.rs:401-442 | removing an order keeps the book invariant, removes exactly that id, and every additive measure drops by that order's share |
| `BookSpec.LookupFinds` | src/book.rs:401-429 | an id is found iff it rests, on the side it rests on |
| `BookSpec.PlacementReportsEveryLevel` | src/book.rs:213-218 | a level not marked dirty by a placement has the size it had |
| `BookSpec.ReportedIffChanged` | src/book.rs:213-218 | the levels a placement marks dirty are exactly those whose total it changed |
| `BookSpec.CancelReportsItsLevel` | src/book.rs:401-442 | a cancel lowers its own level by what remained of the order, and changes no other |
| `BookSpec.LevelNonEmpty` | src/book.rs:241-250 | a level's total is positive iff some order rests there |
| `Levels.FlattenEnqueue` | src/book.rs:256-273 | pushing at the back of a level's queue is inserting behind every order of the same or a better price in the flat order |
| `Levels.FlattenWithout` | src/book.rs:425-436 | removing from a queue, and the level when it empties, is removing from the flat order |
| `Levels.FlattenLevel` | src/book.rs:383-398 | the sum over a level's queue is the total resting at that price |
| `OrderBooks.OrderBook.AddOrder` | src/book.rs:144-319 | the level maps, id index and dirty set after the nested loops are those of the flat greedy match; trades, updates, remainder and deltas as specified |
| `OrderBooks.OrderBook.MatchLevel` | src/book.rs:189-240 | the inner loop over one queue makes exactly the flat match's next trades and keeps the index in step |
| `OrderBooks.OrderBook.MatchOpposite` | src/book.rs:163-252 | the outer loop ends with the flat match's outcome |
| `OrderBooks.OrderBook.TakeDirtyLevels` | src/book.rs:383-398 | every dirty level is reported once, with its current total, and the set is empty afterwards |
| `OrderBooks.OrderBook.MarketBuyCost` | src/book.rs:324-340 | the level-by-level walk with checked arithmetic is the order-by-order cost, an error exactly when that exceeds u64; the unchecked sum of one level is in range because each level's total is, which every placement establishes |
| `OrderBooks.OrderBook.WouldSelfTrade` | src/book.rs:344-378 | the nested read-only loops compute the flat scan |
| `OrderBooks.OrderBook.CancelOrder` | src/book.rs:401-442 | succeeds iff the order rests here and belongs to the caller; removes exactly it and reports its level |
| `Ledgers.Ledger.Deposit` | src/ledger.rs:25-40 | adds to available, marks the key dirty, returns the new balance |
| `Ledgers.Ledger.Withdraw` | src/ledger.rs:51-68 | refuses without enough available, leaving at most a zero row |
| `Ledgers.Ledger.Reserve` | src/ledger.rs:71-89 | moves available to reserved or refuses |
| `Ledgers.Ledger.Release` | src/ledger.rs:91-110 | moves reserved to available or refuses |
| `Ledgers.Ledger.Settle` | src/ledger.rs:112-145 | four unchecked updates, none of which can leave u64 when the settled ledger fits |
| `Ledgers.Ledger.TakeDirty` | src/ledger.rs:147-149 | lists the dirty keys, each once, and clears them |
| `LedgerSpec.SettleConserves` | src/ledger.rs:112-145 | a trade changes no currency's total supply |
| `LedgerSpec.WithdrawIff` | src/ledger.rs:51-68 | all of what is available can be withdrawn and no more; exactly that leaves the available balance, and a refusal moves and marks nothing |
| `LedgerSpec.ReserveIff` | src/ledger.rs:71-89 | all of what is available can be reserved and no more; a refusal moves and marks nothing |
| `LedgerSpec.ReleaseIff` | src/ledger.rs:91-110 | all of what is reserved can be released and no more; a refusal moves and marks nothing |
| `LedgerSpec.SettleAllReserved` | src/ledger.rs:112-145 | settling consumes exactly the makers' and the taker's shares of the reserves and lowers no available balance |
| `LedgerSpec.SettleStepsFit` | src/ledger.rs:122-139 | if the settled ledger fits in u64, so does every intermediate write |
| `DedupSpec.WindowIsTailOfHistory` | src/engine.rs:59-82 | the bounded queue is the last 1000 of all keys ever accepted for the account |
| `DedupSpec.AcceptedIffNotRecent` | src/engine.rs:59-82 | a key is accepted iff it is not one of the account's last thousand accepted keys |
| `Dedups.Dedup.Insert` | src/engine.rs:66-82 | the set stays the union of repeat-free queues of at most 1000, and the answer is the window's |
| `Reserves.ReserveSplits` | src/engine.rs:165-187 | what an admitted order reserves is what its fills cost plus what its resting part commits plus a non-negative excess; none for a market buy |
| `Reserves.PlacementCommit` | src/book.rs:144-319 | how a placement changes the commitments of every account in every currency |
| `PlaceProof.SettledReserve` | src/engine.rs:211-214 | after settling, every reserve equals its commitments, up to the taker's excess |
| `PlaceProof.ExecuteSucceeds` | src/engine.rs:216-243 | once reserved, a placement cannot fail: both releases succeed and every reserve is exact afterwards |
| `PlaceProof.PlaceIsAtomic` | src/engine.rs:142-244 | an error leaves balances, books, ids and numbers as they were; otherwise every guard passed and the placement is the book's |
| `Replies.PlaceVerdict` | src/engine.rs:142-244 | an order is placed iff its market is open, its price is near enough to the last trade, it would not trade with its own account, its cost is a u64 and its payer has that much available; otherwise the answer is the first of these that fails |
| `Replies.PlacedIff` | src/engine.rs:142-244 | the same over every log, the market being open by the last list or delist command and the last trade being the last published one |
| `Replies.AcceptedAsRequested` | src/engine.rs:300-318 | an accepted order gets the number of orders accepted before it, and its row carries the request |
| `Replies.IdsCountOrders` | src/engine.rs:191-192 | accepted orders are numbered from zero without gaps over all markets |
| `EngineInv.CancelExact` | src/engine.rs:265-280 | the discarded release of a cancel succeeds and leaves every reserve exact |
| `EngineInv.CancelIffOwned` | src/engine.rs:265-280 | cancel succeeds iff an order with that id rests and belongs to the caller, and then names it and its market |
| `Replies.CancelAnswers` | src/engine.rs:343-370 | a cancel is answered yes iff the order rests and is the caller's; exactly then it is announced and gone |
| `EngineInv.ApplyKeepsInv` | src/engine.rs:283-411 | every command keeps the invariant: books in order, ids distinct across markets and below the counter, reserves exact, no dirty balance, window well formed |
| `EngineInv.ApplyConserves` | src/engine.rs:283-411 | only answered deposits and withdrawals change a currency's supply |
| `Overflow.PrefixFits` | src/ledger.rs:112-145 | after any number of a placement's settlements every balance is within u64 |
| `Overflow.CostFits` | src/ledger.rs:113-120 | the `expect` on a trade's cost never fires |
| `Overflow.ReplyFits` | src/engine.rs:301-305 | the reply's filled quantity and total cost are u64 |
| `Overflow.SurplusFits` | src/engine.rs:232-238 | the refund of price improvement and each of its terms is a u64, with no subtraction below zero |
| `Overflow.CancelAmountFits` | src/engine.rs:273-277 | what a cancel releases is reserved in full and is a u64 |
| `Overflow.FundedLevelFits` | src/book.rs:392-394 | the total of every level that ties up funds is a u64 |
| `Overflow.LevelsFitIff` | src/engine.rs:175-177 | an accepted order keeps all level totals within u64 unless it is a zero-price limit bid that pushes that level past it |
| `LevelBounds.LevelsFitThroughoutIff` | src/book.rs:392-394 | over every log, all level totals stay u64 iff no accepted order was a zero-price bid that took its level past it when placed |
| `Witnesses.LevelCanOverflow` | src/engine.rs:175-177 | a market is listed, two zero-price bids of the largest size and of one are accepted, and the level total is no longer a u64 |
| `Routing.RoutedAfterPlace` | src/engine.rs:190-209 | after routing, the map names exactly the resting ids, each with its market |
| `Routing.RoutedAfterCancel` | src/engine.rs:265-280 | the same after a cancel |
| `Engines.RouteOrders` | src/engine.rs:195-209 | inserts the rested order, drops exactly the traded makers that left the book |
| `Engines.Engine.CheckGuards` | src/engine.rs:147-164 | listing, price band and self-trade guards in this order, the last two only where a book exists; `Replies.PlaceVerdict` says on prices and trades when each fires |
| `Engines.Engine.SettleTrades` | src/engine.rs:211-214 | settles the trades one by one, in order |
| `Engines.SurplusOf` | src/engine.rs:232-238 | the refund loop computes the price improvement with every term and partial sum a u64 |
| `Engines.Engine.PlaceOrder` | src/engine.rs:142-244 | the objects after the call, and the reply, are those of the specification, and the reply's sums are u64; every amount handed to the ledger is a u64 and every balance stays one |
| `Engines.Engine.CancelOrder` | src/engine.rs:265-280 | finds the book through the route and matches the specification, which looks for the market the order rests in |
| `Engines.Engine.DepositFunds` | src/engine.rs:246-260 | the unchecked sum of what is held is a u64; a checked overflow and the ceiling are refused, otherwise the deposit is made |
| `Engines.Engine.DrainBalances` | src/engine.rs:391-399 | every changed balance is reported once with its current value |
| `Engines.Engine.Apply` | src/engine.rs:283-411 | state, response and published batch are those of the specification's step, up to the order in which hash sets are drained |
| `Runs.RunInv` | src/engine.rs:283-411 | the invariant holds after every log |
| `Runs.BooksAreUncrossed` | src/book.rs:163-187 | after every log every bid is below every ask of its market |
| `Runs.SidesAreSorted` | src/book.rs:254-288 | after every log each side is sorted by price, each level by arrival, and every resting order has something left of its size |
| `Runs.ReservesAreExact` | src/engine.rs:142-280 | after every log each reserve is the sum of the account's resting commitments over all books, and no balance is negative |
| `Runs.RefusalChangesNothing` | src/engine.rs:165-243 | after every log a refused placement changes nothing |
| `Runs.CancelWorksIffResting` | src/engine.rs:265-280 | after every log cancel works iff the order rests and is the caller's |
| `Runs.RunConserves` | src/ledger.rs:25-145 | over every log, what all accounts hold is accepted deposits minus accepted withdrawals |
| `Runs.BatchesAreNumbered` | src/engine.rs:402-410 | batch i of a run carries number i |
| `Replies.PublishedIffCarried` | src/engine.rs:400-410 | a command gets a sequence number iff its reply says it did something |
| `BatchLaws.DeltasAreChanges` | src/engine.rs:329-336 | after every log a batch's deltas are exactly the levels whose total its command changed, with their new totals |
| `BatchLaws.BalancesReported` | src/engine.rs:391-399 | an accepted order's batch reports its payer's balance and both balances of every party to a trade, and no other |
| `BatchLaws.AcceptedInSequence` | src/engine.rs:306-328 | an accepted order's events are its accept, its trades, one update per trade for that trade's maker, then at most one for itself |
| `BatchLaws.CancelPublishes` | src/engine.rs:343-370 | a cancel's batch announces it, updates the order as cancelled, and is about its level and its owner's balance alone |
| `Runs.DuplicateIffRecent` | src/engine.rs:289-294 | a command is a duplicate iff its key is one of the account's last thousand accepted; then nothing changes and nothing is published |
| `Runs.RunTracksOrders` | src/engine.rs:298-370 | for every id, issued or not, the events so far and the books tell the same story |
| `Runs.OrderStory` | src/book.rs:189-310 | an order's reported quantity is the sum of its trades and at most its size; it is filled iff that is all of it, otherwise cancelled iff it no longer rests, otherwise open while nothing is filled and partially filled after |
| `RowLaws.TradesFitOrders` | src/book.rs:199-209 | every trade of every run is at its maker's limit price and within its taker's limit, between the owners and opposite sides of the two orders it names, in their market |
| `RowLaws.UpdatesFitOrders` | src/book.rs:222-232 | every update of every run names its order's owner and market, its filled and remaining quantities make up the order's size, and it says filled iff nothing remains |
| `Runs.TerminalIsFinal` | src/book.rs:220-240 | after filled or cancelled no later event of any continuation names the order |
| `Runs.UpdatedAtMostOnce` | src/engine.rs:319-328 | no command reports the same order twice |
| `Runs.NoSelfTrades` | src/engine.rs:161-163 | with the guard on, no run contains a self-trade |
| `Runs.BandAnchorIsLastTrade` | src/book.rs:211 | the price a market's band is anchored to is that of its last published trade, none before the first |
| `EngineSpec.PriceBandIs` | src/engine.rs:86-89 | inside the band means one tick away, or at most so many ten-thousandths of the last price, the product being cut off at the largest u64 |
| `Accounts.SettleHolding` | src/ledger.rs:112-145 | a trade gives the buyer the base and the seller the quote, and changes nobody else's holding |
| `Accounts.AccountStatement` | src/engine.rs:211-260 | over every run, what each account owns of each currency is its own accepted deposits minus withdrawals plus exactly what the published trades say it got and gave |
| `Accounts.ReplyMatchesEvents` | src/engine.rs:300-305 | the reply's id, filled quantity and total cost are those of the events published with it |
| `Accounts.DepositIff` | src/engine.rs:246-260 | a deposit is accepted iff the account then holds at most the ceiling; a refusal changes nothing |
| `Replies.DepositAnswers` | src/engine.rs:246-260 | the reply is the new available balance, the very one its batch reports, and the batch is about nothing else; which refusal is given when |
| `Replies.WithdrawAnswers` | src/engine.rs:374-381 | a withdrawal succeeds iff that much is available; then exactly that leaves the available balance, reserved funds and other balances stay, and the batch reports it |
| `Replies.ListedIff` | src/engine.rs:382-389 | after any log a market is open iff the last list or delist command naming it listed it |
| `Replies.ListingAnswers` | src/engine.rs:382-389 | the replies say whether the set of open markets changed, and neither command publishes anything |
| `Lifecycle.MakerFate` | src/book.rs:189-240 | a maker's trades, its single update and its place in the book agree on what is left of it, and it is reported filled iff nothing is |
| `Lifecycle.ApplyTracks` | src/engine.rs:298-370 | every command keeps every order's row and fills in step with the books |
| `Lifecycle.ApplySilent` | src/engine.rs:298-370 | a command never mentions an issued order that no longer rests |
| `Lifecycle.ApplyUpdatesOnce` | src/engine.rs:319-328 | one update per order and command at most |
| `Streams.BatchWrites` | src/bin/api/book.rs:81-102 | reading a batch gives each level and balance the batch's value, whatever order it was drained in |
| `Streams.RunReportsLevels` | src/book.rs:383-441 | the deltas of a command give the new size of every level that changed |
| `Streams.RunCovers` | src/ledger.rs:25-149 | a balance outside the dirty set is what it was |
| `Streams.ReaderAgrees` | src/engine.rs:391-410 | after every run, a reader's last write to each level and balance is the engine's value |
| `Streams.OverlapIsHarmless` | src/bin/api/book.rs:81-107 | batches i.. on top of the view after k >= i give the view after all |
| `Projection.BookStore.ApplyBatch` | src/bin/api/book.rs:81-107 | afterwards every level shows the last write to it and the sequence is the batch's |
| `Projection.BookStore.Replay` | src/bin/api/book.rs:168-178 | folds every entry that parses and skips the others |
| `Projection.BookStore.Snapshot` | src/bin/api/book.rs:109-131 | the levels shown, dearest bid or cheapest ask first, at most the depth asked for, every level left out coming after them |
| `Projection.ProjectionAgrees` | src/bin/api/book.rs:81-107 | after every run each level shows exactly the total resting there, and a key is present iff an order rests there |
| `Projection.ClientCatchesUp` | src/bin/api/book.rs:140-150 | a client that applies what is newer than its snapshot shows the projection's own view, if the snapshot had seen a batch |
| `Projection.BookStore.Bootstrap` | src/bin/api/book.rs:153-179 | from the snapshot if there is one, from nothing otherwise, every level shows the last write of the entries after it |
| `FirstBatch.FirstBatchSetsIff` | src/engine.rs:298-334 | the first batch of a run sets a level iff it is that of an order resting at bid price zero: until then every balance is zero and every book empty |
| `FirstBatch.FreshSnapshotOverRuns` | src/bin/api/book.rs:60-68 | over every run, a client that read a snapshot of nothing is right about every level at every length iff the first command to publish was not such an order |
| `Witnesses.FreshClientCanMiss` | src/bin/api/book.rs:60-68 | list a market and bid at price zero: that client is wrong |
| `Tables.Database.UpsertCandles` | src/bin/db_writer.rs:203-235 | exactly the candle of each width that the trade falls in is upserted |
| `Tables.Database.ApplyTrade` | src/bin/db_writer.rs:165-236 | a trade id already there changes nothing; a new one inserts the row and the candles |
| `Tables.Database.ApplyOrderEvent` | src/bin/db_writer.rs:258-320 | an accept inserts a row that is not there, a cancel flips the status and an update sets quantity and status of one that is |
| `Tables.Database.ApplyEvent` | src/bin/db_writer.rs:159-328 | one event's effect on all four tables |
| `Tables.Database.ApplyAll` | src/bin/db_writer.rs:413-421 | after any deliveries each row of each table is the fold of what reached it |
| `Candles.CandleIsSummary` | src/bin/db_writer.rs:203-235 | every candle is the open, high, low, close and volume of exactly the inserted trades stamped in its bucket |
| `Candles.CoarseMergesFine` | src/bin/db_writer.rs:203-235 | a coarse candle is the merge of the fine candles inside it: high, low and volume always, open and close of the first and last of them when the clock did not go back |
| `Candles.RollupIsExact` | src/candle.rs:9 | the same for any two maintained widths |
| `Agreement.OrdersAgree` | src/bin/db_writer.rs:258-320 | the orders row after every run is the run's own story of the order |
| `Agreement.TablesAgree` | src/bin/db_writer.rs:237-320 | after every run balances equal the ledger, and each order row's quantity is the sum of its trades and its status the one that quantity and the book give it |
| `Agreement.TradesTableIsHistory` | src/bin/db_writer.rs:173-201 | over every run each trade is inserted once, in match order |
| `Agreement.OverlapLeavesTables` | src/bin/db_writer.rs:173-320 | delivering batches again, at whatever time, changes no row of trades, candles, balances or orders, on any stream where no order is accepted after it was changed |
| `Agreement.RunInOrder` | src/engine.rs:298-370 | in every run the batch that accepts an order comes before every other batch that mentions it |
| `Agreement.OverlapOfRun` | src/bin/db_writer.rs:173-320 | the same for the stream of every run without crashes |
| `Durability.OverlapAfterCrashes` | src/bin/db_writer.rs:173-320 | the same for every stream an engine can leave behind, whatever crashes there were and whatever batches were lost |
| `Agreement.RowReplay` | src/bin/db_writer.rs:258-320 | order events applied twice leave the row they leave once, also when the accept never arrived |
| `Recovery.AlwaysSafe` | src/runtime.rs:77-193 | in every interleaving the process's state and the snapshot are the fold of the log up to where they stand |
| `Recovery.RecoveryIsExact` | src/runtime.rs:13-75 | recovery rebuilds the fold of every decodable command ever logged, each once and in order |
| `Recovery.NothingNeededIsTrimmed` | src/runtime.rs:173-188 | no entry after the snapshot on disk is ever trimmed |
| `EventLog.EventsAreSafe` | src/runtime.rs:122-143 | numbers on the stream strictly increase and each batch is the crash-free batch of its number |
| `EventLog.LostForever` | src/runtime.rs:57-58 | a batch that recovery passed over never appears later |
| `EventLog.NoGapIff` | src/runtime.rs:57-72 | the stream has every batch due iff no step left the process down while the log held a publishing command whose batch was not in the stream |
| `EventLog.LoggedWhileDown` | src/runtime.rs:57-58 | a behaviour in which a command logged while the process is down is replayed in silence and the stream starts at number 1 |
| `EventLog.CrashBeforeEmit` | src/runtime.rs:120-142 | a behaviour in which the process dies between applying a command and emitting its batch, restarts, and the stream starts at number 1 |
| `Durability.EngineRecovers` | src/runtime.rs:13-75 | the recovered engine is the fold of `apply` over every decodable command |
| `Durability.EngineEventsAreSafe` | src/engine.rs:391-410 | for the engine, every batch on the stream is the run's batch of that number |
| `Durability.EngineNoGapIff` | src/runtime.rs:57-72 | for the engine, the stream has every batch due iff no step silenced one |
| `Durability.EngineCanSkipANumber` | src/runtime.rs:122-143 | two deposits and a crash between applying the first and emitting its batch: number 0 never appears |
| `Durability.ReadersAgreeAfterCrashes` | src/runtime.rs:122-143 | if no step silenced a batch, readers agree with the running engine after any crashes |
| `Durability.SnapshotLosesNothing` | src/snapshot.rs:58-72 | the fields a snapshot skips are empty between commands |
| `Durability.SupplyFitsIff` | src/ledger.rs:25-68 | the supply bound in terms of the log: net deposits of each currency fit in u64 |
| `Durability.Replay` | src/runtime.rs:32-61 | the replay loop on the live engine object is the fold over the entries that parse |
| `Durability.RecoverEngine` | src/runtime.rs:13-75 | on the live engine object, loaded from a snapshot or new: afterwards it is the fold of every decodable command in the log |
| `Readers.TrimKeepsBothReaders` | src/bin/db_writer.rs:435-450 | no entry after the on-disk book snapshot or after the last commit is trimmed, in any interleaving |
| `Readers.RebuiltIsWhole` | src/bin/api/book.rs:153-179 | a restarted projection is the fold of every batch ever emitted, cell by cell |
| `Readers.TrimsHappen` | src/bin/db_writer.rs:440-449 | a behaviour in which an entry is trimmed and the restarted projection is whole all the same |
| `Readers.NothingMissedIff` | src/bin/db_writer.rs:383-433 | rows exist for every parsed entry behind the cursor iff the writer never died holding one |
| `Readers.WriterCanMiss` | src/bin/db_writer.rs:383-433 | an entry is delivered, the writer dies, and its rows are missing for good |
| `Text.IdRoundTrip` | src/snapshot.rs:94-97 | a stream id reads back as itself |
| `Text.EarlierIsFirst` | src/snapshot.rs:101-107 | of two entries of one stream the comparison picks the one appended first |
| `Text.EarlierOfUnparsed` | src/snapshot.rs:101-107 | text that is no stream id on either side leaves the first argument |
| `Text.RowIdInjective` | src/bin/db_writer.rs:414-418 | different events have different row ids |
| `Text.MillisOfStreamId` | src/bin/db_writer.rs:153-155 | a stream id yields its milliseconds when they fit |
| `Text.RowIdHasNoMillis` | src/bin/db_writer.rs:414-418 | a row id yields none, so the clock is used |

## Left out

- HTTP, sessions, websockets and the bot (`src/bin/api/main.rs`, `auth.rs`, `ws.rs`, `src/bin/bot.rs`): plumbing around the core.
- Redis, Postgres, tokio and serde: streams, files and tables are sequences and maps; JSON is an identity on the fields that are not skipped.
- The retention sweep and `prune` (`src/bin/db_writer.rs:72-135`): clock-driven deletes; the table results assume it is off.
- Text of pairs, currencies and candle labels (`src/market.rs`, `src/candle.rs:13-23`): small finite cases.
- Responses on the `results` channel and acknowledgements: nothing in the modelled protocol reads them back.
- The width of `next_order_id`, `next_seq` and account ids: unbounded in the model.
- The deposit ceiling is two fields instead of a function pointer, and limits are constant over a run.
- The nested per-account balance map is one map keyed by account and currency.
- `OrderBooks.OrderBook.TakeDirtyLevels`: level totals are unbounded integers; when they fit u64 is `Overflow.LevelsFitIff`.
- `Tables.Database.UpsertCandles`: the volume column is unbounded, so the database error on overflow is not modelled.
- The counters that decide when to snapshot and when to trim: the protocols are proved for every schedule.
- Failures of XGROUP SETID and a snapshot file that can no longer be read: assumed not to happen.
- More than one engine, writer or API process on the same streams.
