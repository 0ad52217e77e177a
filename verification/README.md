# A verified model of the order management system

This project models the Go packages under `internal/oms`, `internal/replica` and
`internal/ledger`: a price-time matching engine per symbol, an account store
shared by all symbols, group-commit write-ahead logging with crash recovery, log
tailing, replication and double-entry settlement. `dafny verify dfyconfig.toml`
checks all of it.

## How it is put together

The mutable parts of the program are classes over the program's own fields
(`Book`, `Accounts`, `Sequencer`, `Writer`, `Reader`, `Tailer`, `SymbolState`,
`Ledger`). Every method states the new state as a function of the old one, and
what the program promises is proved about those functions.

| what | value-level modules | classes |
|---|---|---|
| matching | `Matching`, `Ladders`, `Snapshots` | `Book` |
| accounts and holds | `AccountState`, `Guards`, `Holds`, `Settling`, `LiveHolds`, `LiveIds`, `Solvency`, `Overflow` | `Accounts` |
| commits | `Commit`, `GroupCommit`, `GoodLogs` | `Sequencer` |
| one symbol's life, step by step | `Durability`, `Recovery`, `Answers`, `NoTrace`, `SharedAccounts`, `OrderIds` | |
| all symbols at once | `World`, `SolventWorld`, `SettledWorld`, `Conservation`, `Interleaving` | |
| the log | `Framing`, `Wal`, `Names` | `WalFiles` |
| start-up | | `Registry` |
| tailing and following | `Tailing`, `Replication`, `Retry`, `Promotion`, `Streaming` | `Tailer`, `Replica` |
| settlement | `Journal` | `Ledger` |
| reply channels | `ReplyPool` | |

Inputs from outside become parameters: clock readings, which step of a log write
fails and how many of its bytes reach the file, where a crash cuts the newest
segment, what a reader of a directory sees at each of its looks, the payload encoding
and the checksum. The payload encoding is assumed
to read back what it wrote (`Framing.Faithful`). Goroutines become steps of
transition systems: one critical section of the program is one step.

Assumptions about the environment: a segment file is created together with its
8-byte header; an fsynced byte survives a crash and of the later ones any prefix
does; log positions and times are 64-bit. The tailer may see the log grow between
any two looks at it.

`Durability` follows one symbol through any number of batches, one critical section
at a time: reserving for one request, logging the batch, answering one request. A
crash may come between any two of these or anywhere inside the log write, and other
symbols may use the shared accounts between any two of them. What they may do there
is not assumed: `SharedAccounts.StepIsElsewhere` proves it of every step a symbol
takes, and `SharedAccounts.UninterruptedLifeIsCommit` proves that the steps of one
batch, taken together, are the commit the `Sequencer` class is proved to do.

## Where the code and its comments part

- `internal/oms/accounts.go:366-367` calls an overflowing trade unreachable. It is
  not: a MARKET buy has no price and a LIMIT sell never passes the overflow guard,
  so their trade can overflow within the API's bounds (`internal/api/server.go:31-32`).
  `Overflow.OverflowHappens` gives one, `Overflow.ExactIffRepresentable` says
  exactly when holds stay right. `Journal.OneBadTradeFailsAll` shows that the
  ledger refuses such a trade's whole batch, where the account store skips the one
  trade. Book, log, recovery and trade identity hold regardless.
- `internal/oms/sequencer.go:249-252` honours an id the caller chose without moving
  the counter past it, so a later order left to the venue can be refused as
  already reserved (`OrderIds.ChosenIdRefusesLaterOrder`). `OrderIds.RefusedIff` and
  `OrderIds.RefusedInLifeIff` say exactly when; with venue-assigned ids only, it never
  happens (`OrderIds.VenueIdsNeverCollide`).
- `internal/oms/wal.go:259-261` says nothing is durable when `Sync` fails. It may be:
  `Recovery.FailedSyncMaySurvive` gives a caller who is told its batch failed and a
  restart that replays it. `Recovery.OnlyAnsweredIff` says exactly when a failed batch
  is gone: when the bytes that survive stop short of its first record's frame.
- `internal/replica/replica.go:293-303` reconnects after any failed apply, a failed
  append as well as a failed sync, and hands the same records to the same writer again.
  What the failed apply had already appended is then logged twice
  (`Retry.RetryLogsTwice`, `Retry.FailedAppendLeavesRecords`,
  `Retry.FailedSyncLeavesRecords`); `Retry.RetryKeepsPrefixIff` says exactly when the
  log stays a prefix of the primary's. `Replication` and `Streaming` therefore restart a
  follower after a failed apply before it is handed anything again.
- `internal/oms/registry.go:153-160` restores a recovered symbol's holds without asking
  whether they are covered, while other symbols go on reserving; and symbols are opened
  lazily, on first use (`internal/oms/registry.go:113-140`), so every order another
  symbol accepts before that may spend the same cash.
  `SolventWorld.ReservingAroundRestoreOvercommits` is a run of each kind. Restoring
  overcommits nobody exactly when balances cover the recovered orders on top of all that
  is reserved by then (`Registry.RestoreSolventIff`); accepting an order meanwhile is safe
  exactly when it leaves room for them (`Registry.AcceptingIsSolventIff`); and a run is
  safe throughout exactly when each of its steps does (`SolventWorld.RunsStaySafeIff`).
- `docs/adr/0006-wal-shipping-replication.md:42-45` says a follower only sees records that
  survived an fsync, so it is never ahead of the primary's recovery point. The tailer reads
  the file, which the writer flushes before it syncs (`internal/oms/wal.go:262-270`):
  `Streaming.FollowerOutlivesPrimary` is a follower that holds a record the primary loses
  with its power. `Streaming.PowerLossSparesIff` and `Streaming.SyncedIsEnoughIff` say
  exactly when that cannot happen, and that otherwise the primary logs its next record at a
  position the follower already has.
- `internal/oms/tail.go:103-112` takes a segment in which nothing was left to read as
  finished if a later one is listed afterwards. A record appended to it in between, before
  the rotation, is never yielded (`Tailing.TailerSkips`); `Tailing.SkipsIff` says exactly
  when: when one more read of the segment it leaves would have found a record.

## Model

| member | source | states |
|---|---|---|
| BookModule.Book.GetOrCreateLevel | internal/oms/book.go:90-127 | finds the price's level or inserts a new one; the side's ladder gains exactly that price, at the place the binary search finds, and nothing else moves |
| BookModule.Book.RemoveLevel | internal/oms/book.go:129-150 | an emptied level leaves exactly one rung of its own side's ladder and its map entry; every other level and the index stay |
| BookModule.Book.Search | internal/oms/book.go:99-113 | the binary search returns the first position whose price is not strictly better |
| BookModule.Book.MatchAgainstAsks | internal/oms/book.go:315-367 | the ask loop, over the three linked structures, terminates with exactly the trades, dropped orders, remainder and surviving list of the flat-list match |
| BookModule.Book.MatchAgainstBids | internal/oms/book.go:370-419 | the same for the bid loop |
| BookModule.Book.ConsumeBest | internal/oms/book.go:324-364 | one turn of either loop is one step of the flat-list match, and either a maker goes or the taker shrinks |
| BookModule.Book.SubmitOrder | internal/oms/book.go:278-305 | the new book, as flat lists, and the outcome equal the simple specification's, and the ladder, level and index invariant is kept |
| BookModule.Book.CancelOwned | internal/oms/book.go:439-453 | removes exactly the named order when the caller may, refuses with the right error otherwise, and keeps the invariant |
| BookModule.Book.RestingOrders | internal/oms/book.go:173-179 | lists exactly the orders of the two sides, each once |
| BookModule.Book.TakeSnapshot | internal/oms/book.go:205-241 | reading level by level gives the aggregation of the flat lists |
| Ladders.IndexIsRestingIds | internal/oms/book.go:59-66 | the index names exactly the resting orders |
| Ladders.LookupFindsOwnSide | internal/oms/book.go:90-94 | the side-blind level lookup never returns a level of the opposite side when a remainder rests |
| Ladders.LeftoverMayRest | internal/oms/book.go:297-302 | after matching, a LIMIT remainder does not cross the book, so resting it keeps best bid below best ask |
| Ladders.AddView | internal/oms/book.go:297-302 | pushing an order at the back of its level puts it behind every equal or better price in the flat list, and keeps the invariant |
| Ladders.ReplaceHeadView | internal/oms/book.go:358-361 | a partly filled maker put back at the front keeps its place in line |
| Ladders.RemoveAtView | internal/oms/book.go:447-451 | unlinking one element removes exactly that order from its side's list and nothing from the other, and keeps the invariant |
| Ladders.IndexFindsResting | internal/oms/book.go:439-446 | what the index finds for an id is what a search of the flat lists finds |
| Snapshots.RowsAreAggregate | internal/oms/book.go:205-213 | one row per ladder price is one row per run of equal prices |
| Snapshots.AggregateKeepsDepth | internal/oms/book.go:244-250 | a snapshot's quantities add up to the side's whole depth |
| Snapshots.AggregateIsSorted | internal/oms/book.go:203-213 | rows run strictly from the best price to worse ones |
| Snapshots.SnapshotIsExact | internal/oms/book.go:205-241 | a snapshot's bids are exactly the prices at which bids rest, best first, each with all that rests at it, its asks those of the asks, and both add up to their side's depth |
| Matching.PriceTimePriority | internal/oms/book.go:315-367 | every resting order trades exactly what price-time priority owes it: what is left of the taker after every eligible order ahead of it, up to its own quantity |
| Matching.VolumeIsExact | internal/oms/book.go:315-367 | the taker trades the smaller of its quantity and the total acceptable quantity of other accounts' orders |
| Matching.DepthIsConserved | internal/oms/book.go:315-367 | opposite depth falls by exactly the traded plus the self-prevented quantity |
| Matching.OwnOrdersAreDropped | internal/oms/book.go:328-337 | self-prevented ids are exactly the taker's own orders passed on the way, in order |
| Matching.SurvivorsAreASuffix | internal/oms/book.go:324-364 | what survives is a tail of the old list, its first order perhaps smaller, and then the taker is done |
| Matching.MatchingStopsOnlyWhenItMust | internal/oms/book.go:316-323 | matching ends only when the taker is filled, the side is empty or the best price is unacceptable |
| Matching.TradesAreProper | internal/oms/book.go:341-353 | every trade is positive, within the limit, never between one non-empty account and itself, and ids are dense from the counter |
| Matching.MakersPriceWins | internal/oms/book.go:339-353 | every trade prints at its maker's price and names that maker, its account and no more than its quantity |
| Matching.RestShape | internal/oms/book.go:90-127 | a remainder rests behind every order of an equal or better price and ahead of every worse one |
| LiveHolds.SubmittedLists | internal/oms/book.go:297-304 | a LIMIT remainder rests with what is left of it, a MARKET remainder is dropped, and the other orders of that side stay |
| LiveHolds.SubmitTakesIff | internal/oms/book.go:278-305 | a submit is taken if and only if its side and its type are known; otherwise the book stays as it was |
| LiveHolds.SubmitIsExact | internal/oms/book.go:278-305 | every order taken, LIMIT or MARKET, buy or sell, trades the smaller of its quantity and what it may trade against, a LIMIT order rests with exactly what is left, no other order of its side moves, and trade and order counters move past what was used |
| Matching.TradesRunFromBestToWorst | internal/oms/book.go:317-345 | trade prices never improve along an outcome |
| Matching.SubmitKeepsWellFormed | internal/oms/book.go:278-305 | a submit whose id is not resting keeps sides sorted, quantities positive, ids unique and the book uncrossed |
| Matching.CancelKeepsWellFormed | internal/oms/book.go:439-453 | a cancel removes exactly one order or nothing, and keeps the book well formed |
| Matching.CancelSucceedsIff | internal/oms/book.go:439-446 | a cancel succeeds if and only if the id rests and the caller is its owner or unnamed |
| Matching.CancelRefusesIff | internal/oms/book.go:439-446 | it is refused as not found if and only if nothing rests under the id, and as not the owner's if and only if another account's order does and the caller is named |
| Guards.NotionalIsExact | internal/oms/accounts.go:181-189 | the division guard lets through exactly the non-negative pairs whose true product is at most 2^63-1, unchanged |
| Guards.TradeValueIsExact | internal/ledger/ledger.go:234-243 | so does multiply-with-wrap-then-divide: wrap-around never fools it |
| Guards.GuardsAgree | internal/oms/accounts.go:181-189 | both guards give the same answer on all 64-bit pairs |
| Guards.FillWithinReservation | internal/oms/accounts.go:310-335 | a fill inside a limit buyer's reservation is representable and costs at most what it frees |
| AccountsModule.Accounts.Reserve | internal/oms/accounts.go:207-255 | the check-and-hold, with its six refusals in order; a refusal changes nothing |
| AccountsModule.Accounts.RestoreHold | internal/oms/accounts.go:266-285 | files the hold of a recovered order without an affordability check; an existing hold is left alone |
| AccountsModule.Accounts.Release | internal/oms/accounts.go:294-307 | frees an order's whole reservation and forgets it; no hold is not an error |
| AccountsModule.Accounts.ShrinkHold | internal/oms/accounts.go:310-345 | reduces a filed hold by at most its own quantity and frees what that had reserved |
| AccountsModule.Accounts.ShrinkTraded | internal/oms/accounts.go:396-406 | shrinks one order's hold by a fill and drops it when nothing is left |
| AccountsModule.Accounts.Complete | internal/oms/accounts.go:359-392 | applies an outcome: every trade's value and both holds, the dropped orders, the taker's remainder |
| AccountsModule.Accounts.LoadBalances | internal/oms/accounts.go:422-439 | replaces all balances and clears reservations, and refuses while holds exist |
| Holds.ReserveAcceptsIff | internal/oms/accounts.go:207-255 | an order is accepted if and only if its account has an entry, its quantity is positive, its id holds nothing yet and what it may cost is not committed already: a sell's shares, any cash at all for a MARKET buy, the representable value of any other order |
| Holds.ReserveRefusesIff | internal/oms/accounts.go:207-255 | each of the six reasons is given if and only if it is the first that applies, and a refusal changes nothing |
| Holds.FundingEffect | internal/oms/accounts.go:97-118 | a deposit opens the account and adds to its cash alone; setting a position sets that one alone |
| Holds.LoadBalancesIff | internal/oms/accounts.go:415-439 | balances are replaced if and only if no order is held; then everybody owns what is loaded and has nothing reserved |
| Holds.OverflowIsSkipped | internal/oms/accounts.go:363-372 | a trade whose value is not representable moves and frees nothing |
| Holds.ReserveEffect | internal/oms/accounts.go:207-255 | an accepted order adds exactly its demand to the reserved totals, which the account could afford; balances do not move |
| Holds.ReleaseEffect | internal/oms/accounts.go:300-307 | releasing frees exactly what the hold had reserved, keeping reserved totals the sums over holds |
| Holds.ShrinkTradedEffect | internal/oms/accounts.go:310-345 | so does a fill |
| Holds.RestoreEffect | internal/oms/accounts.go:266-285 | a restored hold commits exactly its demand |
| Holds.ReservedIsNonNegative | internal/oms/accounts.go:310-345 | no cash or shares are ever negatively reserved |
| Settling.TradeEffect | internal/oms/accounts.go:363-382 | one trade moves its value and shares once between its two accounts and shrinks both sides' holds by its quantity |
| Settling.MatchSettlesHolds | internal/oms/accounts.go:359-392 | through a whole match, survivors stay held at what is left of them and consumed makers are held no more |
| LiveHolds.ReserveStaysExact | internal/oms/sequencer.go:267-276 | reserving adds the order to the pending ones; its id can be neither resting nor pending |
| LiveHolds.SubmitStaysExact | internal/oms/sequencer.go:314-327 | processing any pending submit, known or refused, keeps a symbol's holds exactly its live orders at their remaining quantities |
| LiveHolds.CompleteEffect | internal/oms/accounts.go:347-392 | an outcome moves each trade's value once and releases exactly the dropped orders and, unless it rests, the taker |
| LiveHolds.CancelStaysExact | internal/oms/sequencer.go:309-313 | a cancel releases exactly the cancelled order's hold, a refused one releases nothing |
| LiveHolds.OtherSymbolsStayExact | internal/oms/accounts.go:42-69 | one symbol's step leaves every other symbol's holds exact |
| LiveIds.SubmitStaysGuarded | internal/oms/sequencer.go:314-327 | overflow or not, every live order keeps a hold of at least its quantity |
| LiveIds.ReserveStaysGuarded | internal/oms/accounts.go:217-220 | so the duplicate-reservation check refuses every id of a live order |
| LiveIds.CompleteKeepsSound | internal/oms/accounts.go:359-392 | reserved totals stay the sums over holds whatever the trades are worth |
| Solvency.MatchIsCovered | internal/oms/accounts.go:200-206 | whatever a LIMIT order or MARKET sell trades, both sides had reserved at least that much at no worse a price |
| Solvency.SubmitKeepsSolvent | internal/oms/accounts.go:359-392 | processing such an order lowers nobody's uncommitted cash or shares, and no value overflows |
| Solvency.ReserveKeepsSolvent | internal/oms/accounts.go:222-254 | accepting an order never reserves past what the account owns |
| SolventWorld.StepKeepsSafe | internal/oms/sequencer.go:262-325 | no step of a symbol overflows, and it keeps 0 <= reserved <= owned, recovered orders still to be restored counted in, if and only if it leaves room: a symbol opened with a recovered book has its orders covered, an accepted order leaves the unrestored ones covered |
| SolventWorld.ReserveIsCoveredIff | internal/oms/registry.go:153-160 | reserving for an order while others are being restored keeps every account covered if and only if its demand fits on top of what is reserved and what is still to be restored |
| SolventWorld.OthersMayReserve | internal/oms/accounts.go:222-254 | while nobody is being restored, every accepted order leaves room: the pre-trade check is enough |
| SolventWorld.RunsStaySafeIff | internal/oms/accounts.go:191-206 | over any interleaved run, every state is safe if and only if every step leaves room |
| SolventWorld.OrderlyLeavesRoom | internal/oms/accounts.go:222-254 | over any run, if recovered orders are covered when their symbol opens and nobody reserves until they are restored, every step leaves room: the pre-trade check is the rest |
| SolventWorld.OrderlyStaysSolvent | internal/oms/registry.go:113-160 | every such run, from any safe state, ends with 0 <= reserved <= owned for all cash and all shares |
| SolventWorld.AlwaysSolvent | internal/oms/accounts.go:191-206 | from non-negative balances, every run of every interleaving of LIMIT orders, MARKET sells, cancels and deposits in a process that recovers no orders ends with 0 <= reserved <= owned for all cash and all shares, and no value overflows on the way |
| SolventWorld.ReservingAroundRestoreOvercommits | internal/oms/registry.go:113-160 | two runs, one reserving while a recovered book is being restored and one opening the recovered symbol only afterwards, that end with twice as much reserved as owned although balances covered the recovered order |
| Overflow.ExactIffRepresentable | internal/oms/accounts.go:363-369 | after processing a submit, holds are exactly the live orders if and only if, before it, what price-time priority entitles each resting order to has a representable value at its price |
| Overflow.RepresentableIffFit | internal/oms/book.go:315-419 | no trade of a match overflows if and only if no entitlement read off the book does |
| Overflow.OverflowHappens | internal/oms/accounts.go:364-369 | inside the API's bounds a MARKET buy can overflow against a large LIMIT sell: nobody pays, the order is gone, its hold stays |
| Commit.ProcessWorkStaysExact | internal/oms/sequencer.go:290-331 | whatever branch of the reply loop a request takes, holds are exactly the live orders after it and balances moved by its trades only |
| Commit.ReplayJoin | internal/oms/wal.go:119-126 | replaying a log in two stretches is replaying it whole |
| Commit.ReplayKeepsWellFormed | internal/oms/wal.go:119-126 | replay of a log without live-id reuse keeps the book well formed and uncrossed |
| World.StepKeepsInv | internal/oms/sequencer.go:230-334 | every critical section of every symbol keeps every symbol's holds exactly its live orders, unless a trade value overflows |
| World.RunsKeepInv | internal/oms/sequencer.go:195-212 | so does every run of every interleaving |
| World.BetweenBatches | internal/oms/accounts.go:441-447 | between batches the holds are the resting orders, one for one: none leaked, none missing |
| World.BooksDetermineHolds | internal/oms/registry.go:146-162 | two idle worlds with the same books hold and reserve the same, however each got there |
| Interleaving.UninterruptedBatchIsCommit | internal/oms/sequencer.go:236-340 | a batch's interleavable steps, taken without interruption, do to book and accounts what one commit does |
| Conservation.CompleteConserves | internal/oms/accounts.go:363-376 | applying an outcome creates and destroys no cash and no shares, overflow or not |
| Conservation.RunsConserve | internal/oms/accounts.go:359-392 | over any run, total cash changes by the deposits and total shares of a symbol not at all |
| SequencerModule.Sequencer.AssignIds | internal/oms/sequencer.go:245-260 | unset ids are numbered on from the counter, given ids are kept, every order gets the sequencer's symbol |
| Commit.AssignsExactly | internal/oms/sequencer.go:245-260 | request i keeps everything but its symbol and, if it came without one, its id, which is the next after those the batch has used before it |
| SequencerModule.Sequencer.ReserveBatch | internal/oms/sequencer.go:267-276 | the whole batch is reserved before anything is logged |
| Commit.ReservesInOrder | internal/oms/sequencer.go:267-276 | request i is checked against the accounts as the requests before it left them, and is given that verdict and nothing else |
| SequencerModule.Sequencer.LogRequests | internal/oms/sequencer.go:358-381 | records of accepted requests are appended in order up to the first failure, then synced once |
| GroupCommit.LoggingNumbers | internal/oms/sequencer.go:358-381 | requests are numbered in order up to the first whose append failed, and none behind it |
| Commit.NumberNamesRecord | internal/oms/sequencer.go:358-379 | the position a request is answered with is its record's, one after the last for each accepted request |
| SequencerModule.Sequencer.ProcessBatch | internal/oms/sequencer.go:290-334 | every request is answered in order, on the book and accounts as the ones before it left them |
| SequencerModule.Sequencer.Commit | internal/oms/sequencer.go:236-340 | the concrete commit over book, accounts and log does what the value-level commit does, answers included |
| Answers.BatchAnswers | internal/oms/sequencer.go:290-334 | request i of a batch is answered on the book the records before it replay to: a submit is done if and only if side and type are known, with the book's whole outcome and its own id; a cancel is done or refused with the right reason; a snapshot is that book's; a pre-trade refusal carries its reason |
| Answers.EveryReplyIsExact | internal/oms/sequencer.go:290-334 | over any life, crashes, restarts and other symbols' activity included, each reply is that answer on the log as applied so far, with the verdict the accounts gave when the request was checked |
| Answers.EveryRecordIsAnswered | internal/oms/sequencer.go:229-235 | over any life, every record the book has been given was answered by a reply of its own, at its position, unless a crash came before it could be |
| Answers.VerdictIsReserves | internal/oms/sequencer.go:267-276 | over any life, a request waiting for its answer carries exactly what Reserve said of it when it was checked |
| GroupCommit.ProcessingIsReplaying | internal/oms/wal.go:111-126 | processing a batch does to the book what replaying its records does, prints the same trades and never takes a live order's id |
| GroupCommit.LogWorksEffect | internal/oms/sequencer.go:358-379 | logging adds a prefix of the batch's records, all of them unless an append failed, numbered densely; synced bytes stay synced |
| GroupCommit.LoggedWorks | internal/oms/sequencer.go:278-308 | logging and syncing a batch: the log grows by its records exactly if both succeeded, and otherwise a prefix of them may be on disk behind it |
| NoTrace.FailedCommitLeavesNoTrace | internal/oms/sequencer.go:280-308 | between two idle moments without a successful log write, whatever other symbols do, the book, the position and the symbol's holds are as before and every request got an error or a snapshot; with nobody else acting, all balances and reservations too |
| NoTrace.FailedForGood | internal/oms/sequencer.go:278-287 | a log that failed stays failed, so from then on no log write succeeds and the row above holds for good |
| GroupCommit.BatchIsReplayable | internal/oms/sequencer.go:262-276 | a batch's records can be replayed behind the log, whatever other symbols did while it was reserved |
| GoodLogs.BatchIsSane | internal/oms/sequencer.go:358-365 | every logged submit passed its reservation; rejected orders never reach the log |
| GoodLogs.SaneLogRecovers | internal/oms/registry.go:177-179 | the book such a log replays to is one whose orders' holds can all be restored |
| OrderIds.VenueIdsNeverCollide | internal/oms/sequencer.go:245-252 | over any life, with crashes, restarts and other symbols acting between any two steps, a sequencer that assigns every id never refuses an order as already reserved |
| OrderIds.RefusedIff | internal/oms/accounts.go:207-220 | a submit of a batch is refused as already reserved if and only if its account exists, its quantity is positive, and its id is held already or was taken by an earlier submit of the batch |
| OrderIds.RefusedInLifeIff | internal/oms/sequencer.go:267-276 | the same when other symbols act between the reservations: the ids that count are those held when the batch began and those it has taken since |
| OrderIds.RestartNumbersAbove | internal/oms/sequencer.go:188-190 | a restart numbers on above every id its book's orders hold |
| OrderIds.ChosenIdRefusesLaterOrder | internal/oms/sequencer.go:249-252 | an id a caller chose does not advance the counter, so a later unnumbered order is given it and refused |
| Framing.LittleEndianRoundTrip | internal/oms/wal.go:234-241 | an integer that fits its width is read back as written |
| Framing.FrameRoundTrip | internal/oms/wal.go:430-487 | a whole frame reads back as its record, whatever follows it |
| Framing.FrameLayout | internal/oms/wal.go:234-257 | a frame is length, position, time, payload and checksum over all before it, at fixed places, behind a header of magic letters and version 1 |
| Framing.LittleEndianValue | internal/oms/wal.go:234-241 | four and eight bytes are read lowest first |
| Framing.BadChecksumIsCorrupt | internal/oms/wal.go:461-466 | bytes of the right length whose stored checksum is not theirs read as damage, whatever follows |
| Framing.OverlongIsCorrupt | internal/oms/wal.go:439-443 | so does a length past the cap, whatever of the payload is there |
| Framing.UndecodableIsCorrupt | internal/oms/wal.go:468-474 | so does a payload that decodes to nothing |
| Framing.TornFrameIsShort | internal/oms/wal.go:426-457 | every proper prefix of a frame reads as a short tail, never as corruption |
| Framing.TornTail | internal/oms/wal.go:401-424 | however a segment's records are cut, scanning finds exactly those wholly present, with no error, and stops just past the last |
| Wal.NamesIncrease | internal/oms/wal.go:292-295 | segment names strictly increase |
| Wal.RotateExtends | internal/oms/wal.go:285-295 | rotation adds a segment behind the others and truncates none |
| Wal.AppendEffect | internal/oms/wal.go:213-257 | an append adds the record at the end, rotating if need be; a failed one leaves the log as it was or with part of the record behind it, and loses nothing synced |
| Wal.AppendSucceedsIff | internal/oms/wal.go:213-257 | an append succeeds if and only if the payload is within the cap and no step it takes fails |
| Wal.AppendKeepsWithinLimit | internal/oms/wal.go:224-232 | it rotates if and only if the record overfills a segment that is not empty, so no segment of more than one record ever passes the limit |
| Wal.SyncEffect | internal/oms/wal.go:262-270 | a successful sync covers every record appended so far |
| Wal.CrashKeepsSynced | internal/oms/wal.go:259-270 | after a crash, replay finds every synced record, then some of those that followed, in order, with no error |
| Wal.ReplayIsExact | internal/oms/wal.go:497-524 | replay reads every record of the closed segments and the whole records of the newest |
| Wal.DamageEndsReplay | internal/oms/wal.go:497-524 | a damaged record anywhere ends the replay right there, with an error |
| Wal.OpensUnlessDamaged | internal/oms/wal.go:160-203 | a writer opens on the newest segment if and only if what follows its whole records is not damage, and cuts exactly that off |
| Wal.ReopenIsExact | internal/oms/wal.go:160-203 | reopening truncates exactly the torn tail: replay is unchanged, and the newest segment alone gives the same last position as a full replay |
| Wal.LogIsDense | internal/oms/wal.go:57-62 | positions across all segments run from 1 without a gap |
| Names.NamesSortAsNumbers | internal/oms/wal.go:57-62 | 19-digit zero-padded names sort as strings exactly as their positions do, and never collide |
| Names.NameRoundTrip | internal/oms/wal.go:583-585 | a segment's first position is read back from its name |
| Names.ListingIsLogOrder | internal/oms/wal.go:572-581 | listing a log's directory by name lists its segments in log order |
| WalFiles.Writer.Append | internal/oms/wal.go:213-257 | the concrete append, rotation and all, is the value-level append |
| WalFiles.Writer.Rotate | internal/oms/wal.go:285-317 | closes the segment and opens the next, or stops at the step that failed |
| WalFiles.Reader.Next | internal/oms/wal.go:430-487 | one read is one parse at the offset; the offset only moves past records that verified |
| WalFiles.ScanSegment | internal/oms/wal.go:555-570 | the scan loop returns the highest position and the offset just past the last intact record |
| WalFiles.OpenWriter | internal/oms/wal.go:160-203 | the concrete reopen is the value-level one; a damaged newest segment is refused untouched |
| WalFiles.LastPosition | internal/oms/wal.go:532-551 | the newest segment alone gives the position a reopened writer resumes from |
| WalFiles.Recover | internal/oms/wal.go:497-524 | the book becomes the replay of every record above afterSeq up to the first error, and the highest position seen is reported |
| Recovery.RecoveryIsExact | internal/oms/sequencer.go:278-333 | wherever any life stops, the directory reads back every record of every synced batch in order, then some first records of the one batch whose sync had not succeeded; every reply that something was done has its record there, printing the same trades |
| Recovery.OnlyAnsweredIff | internal/oms/wal.go:259-271 | only answered records survive a crash if and only if the surviving bytes stop short of the first unanswered frame |
| Recovery.FailedSyncMaySurvive | internal/oms/wal.go:259-271 | one accepted order, a failed sync, a caller told so, and a restart that replays the order |
| Durability.EventKeepsHistory | internal/oms/sequencer.go:230-235 | every step of every batch, failed or not, every crash and restart, and everything other symbols do keeps the book the replay of what was applied, the log and the replies growing, and every reply backed by its record |
| SharedAccounts.UninterruptedLifeIsCommit | internal/oms/sequencer.go:236-340 | the steps of one batch, with no other symbol in between, are one commit: same engine, same bytes in the log, same accounts, same replies |
| SharedAccounts.StepIsElsewhere | internal/oms/accounts.go:36-60 | no step of a symbol, overflow or not, touches another symbol's holds or unbalances the reserved totals, which is all any symbol assumes of the others |
| Recovery.TradeIdentity | internal/oms/book.go:68-75 | over any life, trades handed to callers under one id are the same trade in every field, and ids are dense from 1 |
| Durability.TradesAreDense | internal/oms/book.go:341-353 | the trades of a replay are numbered one after another from the book's counter |
| Recovery.StoppedMayOpen | internal/oms/registry.go:164-185 | whatever happened before, a stopped symbol's directory replays cleanly and without reusing a live id, to a book whose holds can be restored, and opening it gives the engine a restart continues with |
| Registry.StoppedMayRestart | internal/oms/registry.go:146-185 | with its holds restored, in any order, the stopped symbol may go on as a restart of the same life |
| Registry.NewSequencer | internal/oms/registry.go:164-185 | recover, reopen, restore holds: the new sequencer stands on the replayed book and resumes positions and order ids above it |
| Registry.Attach | internal/oms/registry.go:146-162 | restores the hold of every resting order of the recovered book |
| Registry.RestoreAllIsExact | internal/oms/registry.go:153-160 | restored holds are exactly the book's resting orders |
| Registry.RestoreSolventIff | internal/oms/registry.go:153-160 | restoring a recovered book's holds leaves reserved within owned for all if and only if balances cover its orders on top of everything reserved by then |
| Registry.AcceptingIsSolventIff | internal/oms/registry.go:153-160 | an order accepted during a restore leaves everyone solvent, at once and when the restoring is finished, if and only if it leaves room for the unrestored orders |
| Registry.RestoredMayCommit | internal/oms/registry.go:146-185 | with its holds restored, every live order's id is guarded, which is what a commit asks for |
| Registry.RestoringOrderIsIrrelevant | internal/oms/book.go:168-179 | whatever order they are restored in |
| Tailing.LocateStarts | internal/oms/tail.go:120-143 | the segment reading starts at never skips a record above the starting position |
| Tailing.ReadYields | internal/oms/tail.go:156-179 | one read yields exactly the next records above the position, at most max, and none only when no whole one is left |
| Tailing.MovesPast | internal/oms/tail.go:103-112 | the tailer moves on to the segment right after its own, and stands rightly there exactly when everything in its own above the start has been yielded |
| Tailing.GrowthKeepsTail | internal/oms/tail.go:145-155 | appends and rotations between reads never disturb where the tailer stands |
| Tailing.SkipsIff | internal/oms/tail.go:103-112 | over any growth between its three looks at the directory, a pass moves beyond a record not yet yielded if and only if one more read of the segment it leaves would have found one |
| Tailing.PassYields | internal/oms/tail.go:82-115 | a pass that leaves nothing behind yields exactly the log's next records, never fails, and is caught up only when everything whole has been yielded |
| Tailing.PassStops | internal/oms/tail.go:82-115 | a pass that meets damage fails and yields nothing, not even what it read before the damage, though it has moved past that; with no segments nothing happens |
| Tailing.TailIsFilter | internal/oms/tail.go:82-115 | over any layout, growth, starting position and positive caps, as long as no pass leaves a record behind, everything yielded is the log above the start, each record once, in order |
| Tailing.StillLooksLeaveNothing | internal/oms/tail.go:103-112 | no pass does if nothing is written between a read and the listing after it |
| Tailing.TailIsCompleteIff | internal/oms/tail.go:82-115 | over any growth, the tailer has yielded every record it has passed if and only if no pass left one behind; a skipped record is never made up for |
| Tailing.TailerSkips | internal/oms/tail.go:103-112 | a record and a rotation written between the read and the listing: the tailer yields the first and third records and never the second |
| TailerModule.Tailer.Poll | internal/oms/tail.go:82-115 | one poll returns exactly the log's next records, fewer than max only when everything whole has been yielded |
| TailerModule.Tailer.ReadSegment | internal/oms/tail.go:156-179 | the read loop over a reopened segment is the value-level collection |
| ReplicaModule.SymbolState.ApplyRecords | internal/replica/replica.go:192-224 | filter, append, sync, replay: the concrete apply is the value-level one |
| ReplicaModule.OpenSymbol | internal/replica/replica.go:161-182 | a follower's symbol is prepared from its own log alone |
| Replication.ApplyKeepsFollower | internal/replica/replica.go:192-224 | applying any batch that overlaps or continues the log keeps it a prefix of the primary's and reaches exactly to the batch's end |
| Replication.NothingNewSucceeds | internal/replica/replica.go:204-206 | a batch with nothing new succeeds and changes nothing |
| Replication.ApplySucceedsIff | internal/replica/replica.go:192-224 | without faults an apply succeeds unless something is new and its sync fails, and then nothing is applied |
| Replication.DamagedIsNotOpened | internal/replica/replica.go:161-182 | a follower's symbol with a damaged record anywhere in its log is not opened |
| Replication.FollowerIsPrefix | internal/replica/replica.go:184-224 | over any run of streams, resends, disconnects and crashes, the follower's log is a prefix of the primary's, its book the replay of it, and position its last position |
| Promotion.FollowerMayOpen | internal/replica/replica.go:161-182 | a stopped follower's directory always opens again, replaying cleanly to a prefix of the primary's log |
| Promotion.PromotionContinues | internal/replica/replica.go:158-182 | a sequencer opened on a follower stopped at any moment, its last apply failed or not, has the book of the primary's first n records, n at least everything applied, and logs next at n + 1 |
| Promotion.StoppedFollowerTakesOver | internal/replica/replica.go:158-182 | after any run end to end, the primary's restarts and the power losses that spare the follower included, a stopped follower's directory opens as a follower and as a sequencer with the book of the first n records of the primary's directory, logging next at n + 1 |
| Promotion.RunningFollowerTakesOver | internal/replica/replica.go:158-182 | so does the directory of a follower stopped while it runs, any unsynced bytes lost, with n at least all it had applied |
| Retry.RetryKeepsPrefixIff | internal/replica/replica.go:192-224 | retrying a failed batch on the same writer, wherever either attempt rotates, keeps the log a prefix of the primary's if and only if nothing of it had been appended or the retry starts over: its first rotation truncates a segment, others truncate each later one up to its end, and any past its end follow right on |
| Retry.SmallBatchStartsOverIff | internal/api/replication.go:19-23 | a retried batch of at most half a segment starts over if and only if its first record truncates the newest segment |
| Retry.FailedAppendLeavesRecords | internal/replica/replica.go:207-211 | an append that fails part-way leaves the earlier records logged and the position unmoved |
| Retry.FailedSyncLeavesRecords | internal/replica/replica.go:212-216 | a failed sync leaves the whole batch logged and the position unmoved |
| Retry.RetryLogsTwice | internal/replica/replica.go:284-304 | a batch whose second append failed, retried, is in the log twice where the book applied it once |
| Streaming.StreamedFollowerIsPrefix | internal/replica/replica.go:316-341 | end to end, from the primary's directory through tailer and stream to the follower's: over any growth, rotation, restart, broken stream, crash and power loss that spares what the follower holds, the follower's log is a prefix of the primary's and its book the replay of it |
| Streaming.PowerLossSparesIff | docs/adr/0006-wal-shipping-replication.md:42-45 | after any run and whatever bytes the primary's power loss leaves, the follower's records are a prefix of the primary's if and only if all of them are whole in those bytes; otherwise the primary next logs at a position the follower already holds |
| Streaming.SyncedIsEnoughIff | docs/adr/0006-wal-shipping-replication.md:42-45 | the follower is spared whatever unsynced bytes go if and only if all it holds had been synced |
| Streaming.FollowerOutlivesPrimary | internal/oms/wal.go:262-270 | a record flushed, polled, received and stored before the primary's sync is the follower's and, after a power loss, not the primary's |
| Journal.SettleOne | internal/ledger/ledger.go:176-200 | a trade adds its four legs once; again changes nothing |
| Journal.SettleIsUnion | internal/ledger/ledger.go:163-229 | settling a batch makes the journal stand for the union of what was settled |
| Journal.SettlementIsConfluent | internal/ledger/migrations/0001_journal.sql:38-57 | any batching, order and repeats of the same trades end in the same journal |
| Journal.SettlingKeepsRows | internal/ledger/migrations/0001_journal.sql:38-57 | a row once posted is never changed or taken back by settling anything else |
| Journal.OneBadTradeFailsAll | internal/ledger/ledger.go:157-186 | one trade that cannot be settled posts nothing of its batch |
| Journal.FourRowsPerTrade | internal/ledger/ledger.go:327-338 | a settled trade has exactly four rows, self-trades included |
| Journal.NoImbalance | internal/ledger/ledger.go:340-361 | debits equal credits per (symbol, trade, asset) |
| Journal.BalancesAreMovements | internal/ledger/ledger.go:245-275 | a net balance is the movement of every settled trade, counted once |
| Journal.JournalConserves | internal/ledger/migrations/0001_journal.sql:3-6 | the journal creates no cash and no shares |
| SettledWorld.LedgerAgreesWithAccounts | internal/ledger/ledger.go:163-216 | over any run of all symbols, settling what it printed in any batches, order and repeats succeeds if and only if every printed trade can be settled; then no value had overflowed and the journal's net is what every account's cash and shares moved by, deposits aside |
| SettledWorld.RunIsSettleable | internal/ledger/ledger.go:234-243 | a run without overflow, of orders of named accounts whose LIMIT prices are at least one, MARKET orders included, prints only trades the ledger can settle |
| SettledWorld.SolventLedgerAgrees | internal/ledger/ledger.go:163-216 | with such LIMIT orders and MARKET sells, from non-negative balances and nothing recovered, every run's trades settle and the ledger agrees with every balance |
| SettledWorld.PrintedOnce | internal/oms/book.go:68-75 | no run prints two trades of the same symbol and id |
| LedgerModule.Ledger.Settle | internal/ledger/ledger.go:163-216 | the transaction posts all rows or none |
| LedgerModule.Ledger.Balances | internal/ledger/ledger.go:289-325 | the accumulation loop over grouped sums gives every account's cash across symbols and position per symbol |
| LedgerModule.LoadedBalancesAreMovements | internal/ledger/ledger.go:277-288 | balances loaded at startup are the movements of everything settled |
| ReplyPool.StepKeepsInv | internal/oms/sequencer.go:392-414 | each step of each caller and of the goroutine keeps the channel protocol in order |
| ReplyPool.ProtocolIsSafe | internal/oms/sequencer.go:103-113 | over all interleavings a pooled channel is empty and nobody's, a reply never blocks, and no caller gets another's result |
| ReplyPool.EachAnsweredOnce | internal/oms/sequencer.go:290-334 | over any run no request is answered twice, requests are answered in the order taken, and once the batch is done all taken have been answered |

## Left out

- SolventWorld.AlwaysSolvent: leaves MARKET buys out, which the code says can overdraw; they are in matching, conservation, durability and holds. With recovered orders the code does not keep it; `SolventWorld.RunsStaySafeIff` is the exact condition and `SolventWorld.OrderlyLeavesRoom` one that suffices. Symbols are recovered one at a time, as the registry's lock has it. Direct `SetPosition` calls after opening are not steps of a run.
- World.StepKeepsInv: assumes no trade value overflows; `Overflow.ExactIffRepresentable` is the exact condition and `LiveIds` is what holds without it.
- World.RunsKeepInv: orders one symbol's steps and interleaves symbols' critical sections; it does not model the Go memory model or the locks themselves.
- BookModule.Book.SubmitOrder: requires an id that is not resting, which the code does not check; `LiveIds.ReserveStaysGuarded` and `GroupCommit.BatchIsReplayable` show that commits and replays only call it so.
- BookModule.Book.ConsumeBest: is one body for the two loops, which in the source repeat it line for line.
- WalFiles.Recover: requires a log whose submits reuse no live id, which `Recovery.StoppedMayOpen` and `Promotion.FollowerMayOpen` prove of every directory a sequencer or a follower leaves.
- Wal.AppendEffect: takes positions one after the last, as the sequencer and a follower's first attempt append them; `Retry.AppendStays` and `Retry.AppendRotates` are about any position.
- Framing.TornTail: is about torn tails; detection of arbitrary corruption by the checksum is not claimed, and a wrong checksum, an oversized length and an undecodable payload are one error here.
- Replication.FollowerIsPrefix: takes the primary's log as one that only grows; `Streaming` has its crashes and power losses, and the exact condition under which these keep the follower's log a prefix.
- Streaming.StreamedFollowerIsPrefix: restarts a follower after a failed apply before it is handed anything again, where the code retries (`Retry`); its polls leave nothing behind (`Tailing.SkipsIff`) and its power losses spare the follower (`Streaming.PowerLossSparesIff`), which the code does not ensure.
- Recovery.TradeIdentity: is about (symbol, trade id) as handed out by one symbol's sequencer; the lossy trade feed is not part of this model.
- SequencerModule.Sequencer.Commit: runs one goroutine at a time; other symbols' activity inside a batch is in `Durability`, whose steps `SharedAccounts.UninterruptedLifeIsCommit` ties to it.
- Retry.RetryKeepsPrefixIff: starts from a log torn nowhere, as a failed create or a failed sync leaves it. A failed buffered write makes the writer's buffer refuse everything until a rotation's failed close drops the buffer, after which a later retry opens a new segment; that, and the nil buffer an append meets when it does not rotate after a failed create, are not modelled.
- Tailing.TailIsFilter: assumes no pass leaves a record behind, which the code does not ensure; `Tailing.TailIsCompleteIff` has every run, skips included.
- Replication.ApplyKeepsFollower: starts from a follower whose last apply succeeded; `Retry` is about the others.
- TailerModule.Tailer.Poll: sees one state of the directory; `Tailing.PassYields`, `Tailing.SkipsIff` and `Tailing.TailIsFilter` cover growth in between.
- LedgerModule.Ledger.Settle: the database is a map keyed by the unique index and a transaction is a copy of it; SQL, migrations and connection failures are not part of this model.
- Sequencers without a log or without accounts, which only benchmarks and tests use.
- `Tailer.Next` blocking and polling intervals, reconnection, progress reports and lag, and every other liveness or timing claim.
- JSON text and the CRC polynomial; wire conversion of records is the identity on what matching reads.
- Timestamps are carried in log records and nowhere interpreted; trades carry none.
- Snapshots are rows, not the JSON text made of them.
- Balances, order quantities and ids are unbounded integers; 64-bit limits appear in the value guards, the log format and the segment names.
- The registry's map of symbols, its cap and symbol validation, `MutexBook`, metrics, tracing, gRPC handlers and commands.
- Rebuilding balances from a journal that is missing trades, and settling again after promotion, which the repository documents as not built.
