# GHOststake: model and proofs

A Dafny model of the parts of GHOststake that hold state or do exact arithmetic, with proofs of what they are
for:

- **The indexer** (`Chain`, `Decoder`, `LedgerStore`, `IndexerSpec`, `Indexer`, and the laws in `Rows`,
  `DecoderLaws`, `Reading`, `Convergence`, `Progress`, `RereadGuard`, `Replay`, `ReplayReorg`, `ReorgExamples`,
  `DecoderHistory`, `Books`). The store and the indexer are classes whose methods update fields as the source
  updates its tables. Each is proved equal to a function of the database, and the laws are about every run of
  that function: polls, crashes, reorgs and decoder upgrades. A chain is a sequence of blocks; an endpoint is a
  chain with a set of calls that fail and a set of log queries answered with nothing.
- **The projections** (`Projection`, `ProjectionLaws`, `RoundHistory`, `PositionHistory`) and **the activity
  feed** (`Activity`, `ActivityRows`, `ActivityHistory`, `CursorText`): folds over stored rows, and pages over
  the union of two tables.
- **The keeper** (`KeeperRules`, `KeeperDesk`, `Keeper`, and the laws in `KeeperCursor`, `KeeperRuns`,
  `KeeperSettlement`, `KeeperActions`, `KeeperBackoff`; `Feed` and `Strike` for its search and its rounding).
  The keeper is a class with the source's maps; each method is proved to do to one market's desk what a function
  says and nothing to any other's, and the laws follow one market's seat over whole runs.
- **The money arithmetic** (`FixedPoint`, `Lending`, `LendingLaws`, `LendingFigures`, `AccrualMargin`,
  `Parimutuel`): floor division in fixed point, with exact bounds.
- **The pseudo-locale** (`PseudoSpec`, `Pseudo`, `PseudoReturns`, `PseudoLaws`, `PseudoMessages`): a recursive
  descent proved against a machine that moves character by character and only counts the branches it is in.

`dafny verify dfyconfig.toml` checks everything.

Assumptions, each a precondition where it is used: one deployment per database; the chain does not move during
one cycle; hashes commit to prefixes; no block deeper than `Confirmations` below the highest indexed one
changes; watched contracts have no logs below `StartBlock`; a transaction hash and a log index identify a log;
rounds only move forward and feeds only append; a registry read names each market once.

Where the code and its comments disagree, the model follows the code:

- A `<` with no `>` after it sends the pseudo-locale's search to -1 and its position back to 0, so the message
  is read again from its start, inside the branches open by then. It returns exactly when one of the first
  2|m|+1 readings gets to the end (`PseudoReturns.ReturnsExactlyWhen`), and never when the tag is in no branch.
- Not every reorg inside `Confirmations` heals: one that drops every watched log of the lowest window still
  holding a row is taken for an endpoint that lost its logs, and the indexer stalls. The comment on the guard
  accepts this as rare because such a reorg is deep; where logs are sparse one of the newest indexed block is
  enough. `Progress.CyclesConverge` has the exact condition and `ReorgExamples.AReorgCanStallTheIndexer` an
  input.
- A delisting can strand a round. It drops the market at once exactly when no pass has got through since
  start-up, or the latest complete one found everything it counted settled
  (`KeeperRuns.ADelistingDropsExactlyWhen`), and a round that pass opened is not among those
  (`KeeperRuns.AnOpenRoundCanBeStranded`). `KeeperRuns.DelistingIsSafe` bounds what can be left open.
- A resolve refused past its resolve deadline is not backed off from: what is due then is the refund, so it is
  the refund's failures that are waited for (`KeeperBackoff.NothingIsSentTooSoon`), and the resolve is sent
  again by every poll (`KeeperBackoff.AResolvePastItsDeadlineDoesNotWait`).
- A re-read of rows already held is not always a no-op. During a decoder replay rows sit above the cursor, and a
  reorg is noticed only when it changes the cursor's own block: until then dropped rows stay
  (`ReplayReorg.WhatTheCheckMissesStays`), and a row whose log has moved can be lost for good
  (`ReorgExamples.AReorgCanLoseARow`). `ReplayReorg.ComesRightExactlyWhen` has the exact condition for the
  tables to come right all the same.
- A capped liquidation exactly on a rounded line can lower health (`LendingLaws.OnARoundedLineItCanHurt`); it
  does not when the collateral covers the debt with the bonus (`LendingLaws.CappedLiquidationExactly`).

## Model

| member | source | states |
|---|---|---|
| LedgerStore.Store.Append | ghoststake-backend/internal/store/ledger.go:26-108 | One transaction: both batches inserted row by row on (transaction, log, record) with conflicts ignored, then the cursor; or, when the commit fails, nothing at all changes |
| LedgerStore.Store.RollbackFrom | ghoststake-backend/internal/store/ledger.go:134-173 | Deletes from both tables every row at or above a block and moves an existing cursor under it with its hash cleared, together or not at all |
| LedgerStore.Store.ReplayFrom | ghoststake-backend/internal/store/ledger.go:216-230 | Rewinds the cursor and clears its hash, touching no row |
| LedgerStore.Store.RecordsInRange | ghoststake-backend/internal/store/ledger.go:187-199 | Counts the rows of both tables in a range, both ends included: zero exactly when neither table holds a row there |
| Tables.InsertIsIdempotent | ghoststake-backend/internal/store/ledger.go:33-85 | Inserting rows whose keys are all held changes nothing: a range may be re-read any number of times |
| Indexer.Indexer.Step | ghoststake-backend/internal/indexer/indexer.go:565-654 | A cycle run in place over the store leaves exactly the database and the outcome of the cycle specification, for every endpoint, failing call and silent answer |
| Indexer.Indexer.CheckReorg | ghoststake-backend/internal/indexer/indexer.go:848-891 | The reorg check in place: passes, refuses, or deletes and rewinds, as specified |
| Indexer.Indexer.AssertLogsStillServed | ghoststake-backend/internal/indexer/indexer.go:782-843 | The loop over windows answers as the specified guard |
| Indexer.Indexer.AssertRangeServed | ghoststake-backend/internal/indexer/indexer.go:701-751 | The probe of the first blocks answers as specified |
| Indexer.Indexer.DecodeLogs | ghoststake-backend/internal/indexer/indexer.go:893-928 | The loop over returned logs yields the concatenation of each log's records in order, or fails on the first that cannot be decoded |
| Indexer.Indexer.ReplayForNewDecoders | ghoststake-backend/internal/indexer/indexer.go:267-315 | The boot-time rewind in place, as specified |
| IndexerSpec.StepShape | ghoststake-backend/internal/indexer/indexer.go:565-654 | Whatever fails, a cycle indexes the bounded window right above the checked cursor and under the confirmed head, or leaves what the reorg check left, or nothing changed |
| IndexerSpec.ACycleNeedsItsAnswers | ghoststake-backend/internal/indexer/indexer.go:565-654 | A cycle that indexed had every call it makes answered, the commit included, and one that rolled back had the header at the cursor, the guard and the rollback; without a head, or with fewer blocks than are waited for, nothing is touched; a boot that rewound had its two calls answered; a log that is not decoded costs none |
| IndexerSpec.ARollbackIsOneWindow | ghoststake-backend/internal/indexer/indexer.go:858-891 | A rollback goes back exactly one confirmation window, or to the start block where there is none: every row below is kept as it was, every row from there up is gone, and the cursor is left right under it without a hash |
| IndexerSpec.DeepRangesAreProbed | ghoststake-backend/internal/indexer/indexer.go:701-751 | A range is walked if and only if it lies in the newest 256 blocks, or the first of its first eight blocks whose header claims logs is served any of them |
| Reading.CommittedRange | ghoststake-backend/internal/indexer/indexer.go:593-654 | A committed range of a truthful endpoint wrote exactly the rows those blocks decode to and stopped on its last block with that block's hash |
| Convergence.EveryRunKeepsInv | ghoststake-backend/internal/indexer/indexer.go:565-654 | In every run of cycles, crashes and settled-depth reorgs, the rows are exactly those of some chain that carries the cursor's hash, up to the cursor |
| Convergence.CheckedTablesAreCurrent | ghoststake-backend/internal/indexer/indexer.go:848-891 | Whenever the reorg check lets a cycle go on, the tables are already the current chain's up to the cursor in hand |
| Convergence.TablesNameTheirChain | ghoststake-backend/internal/store/ledger.go:26-173 | After any run, whichever chain carries the cursor's hash, both tables equal one straight read of that chain up to the cursor |
| Progress.DistanceFalls | ghoststake-backend/internal/indexer/indexer.go:590-654 | Every successful read moves the cursor up by at most BatchSize and never past the confirmed head, so with a fixed head and no rollback the distance left strictly falls |
| Progress.CheckPassesExactlyWhen | ghoststake-backend/internal/indexer/indexer.go:753-891 | With every call answered the reorg check passes if and only if it has no hash to check, or the chain still reaches the cursor and carries that hash, or reaches it and nothing is held in the range to be re-read, or the lowest window holding a row still has watched logs; refusing, it changes nothing |
| Progress.RefusedCyclesStall | ghoststake-backend/internal/indexer/indexer.go:753-781 | When that condition fails no cycle ever changes anything, whatever fails or goes unanswered in it, on that chain or, where it reaches the cursor, on any that extends it |
| Progress.CyclesConverge | ghoststake-backend/internal/indexer/indexer.go:565-654 | From any reachable state, enough answered cycles end caught up with the canonical chain if and only if that condition holds; from below the confirmed head they end exactly on it, both tables one straight read of the chain |
| Progress.HistoryLeavesNoTrace | ghoststake-backend/internal/indexer/indexer.go:565-654 | Two indexers with different batch sizes and different pasts, both meeting that condition and neither past the confirmed head, end with the same tables, and with identical databases where both had something left to read |
| ReorgExamples.AReorgCanStallTheIndexer | ghoststake-backend/internal/indexer/indexer.go:776-781 | An input where it stalls: a reachable state, an allowed reorg that drops the only watched log of the range to be re-read, and an endpoint that answers everything |
| RereadGuard.WindowsTileTheRange | ghoststake-backend/internal/indexer/indexer.go:782-843 | The windows tile the range upward without gaps, none wider than a batch; there is no lowest held one exactly when nothing is held |
| RereadGuard.GuardLooksAtTheLowestHeldWindow | ghoststake-backend/internal/indexer/indexer.go:782-843 | For every endpoint the guard passes only if no row is held in the range or the lowest window holding one still returns logs, and with every call answered it passes whenever that is so |
| RereadGuard.GuardCountsEveryWindow | ghoststake-backend/internal/indexer/indexer.go:782-843 | The guard passes only when every window up to the lowest held one could be counted |
| RereadGuard.RewindsExactlyWhen | ghoststake-backend/internal/indexer/indexer.go:267-315 | With every call answered a boot goes back to the start block if and only if another version indexed as far as that, replays are not switched off, and the lowest window holding a row to be re-read is still served; it touches no row |
| RereadGuard.HonestEndpointsPass | ghoststake-backend/internal/indexer/indexer.go:753-781 | A truthful endpoint on a chain that still holds what was indexed is never refused |
| RereadGuard.MuteCheckDeletesNothing | ghoststake-backend/internal/indexer/indexer.go:848-891 | The reorg check of an endpoint that answers every log query with nothing deletes no row, whatever chain it reports |
| RereadGuard.MuteEndpointsCostNothing | ghoststake-backend/internal/indexer/indexer.go:753-891 | While no row sits above the cursor, no run of boots and cycles against such endpoints changes either table |
| Replay.ReplayEqualsFreshIndex | ghoststake-backend/internal/indexer/indexer.go:267-315 | After an upgrade to decoders that append, in any run of boots, cycles, failures and crashes on a chain that only grows, no old row is lost or changed, and once the cursor is back both tables are what a fresh index would hold |
| Replay.UpgradeConverges | ghoststake-backend/internal/indexer/indexer.go:246-315 | One boot and enough answered cycles complete the replay: both tables are one straight read by the new decoders with every old row in place |
| Replay.AtMostOneRewind | ghoststake-backend/internal/indexer/indexer.go:267-315 | From any database, over any sequence of boots, cycles, endpoints, failures and reorgs, one decoder version rewinds at most once, and never where replays are switched off |
| ReplayReorg.WhatTheCheckMissesStays | ghoststake-backend/internal/indexer/indexer.go:848-891 | A reorg that leaves the cursor's block alone, or comes while the cursor has no hash, is not seen: a held row of either table that it dropped stays for good, whatever cycles follow and fail, and the tables are never again a straight read up to any height |
| ReplayReorg.ComesRightExactlyWhen | ghoststake-backend/internal/indexer/indexer.go:565-654 | From any database, during a replay or not, on a chain the reorg check lets it read: enough answered cycles end in one straight read if and only if the check left no row but the chain's up to the confirmed head, and none of those below the first block to be read is missing |
| ReplayReorg.AReorgRightAfterTheRewindIsNotSeen | ghoststake-backend/internal/indexer/indexer.go:267-315 | So a reorg between a rewind and the first block read again is never seen, whatever it drops |
| ReplayReorg.ReplayIsRightExactlyWhen | ghoststake-backend/internal/indexer/indexer.go:267-315 | And on the chain it is given once rewound a replay ends in one straight read if and only if every row held at the rewind, in either table, is one of that chain's up to the confirmed head |
| ReorgExamples.AReorgCanSpoilAReplay | ghoststake-backend/internal/indexer/indexer.go:267-315 | An input where a dropped row is kept: an upgrade, and a reorg of the newest indexed block right after the rewind |
| ReorgExamples.AReorgCanHealAReplay | ghoststake-backend/internal/indexer/indexer.go:848-891 | One where a reorg does drop held rows and the replay still comes right: it changes the cursor's block, and the rollback takes the rows above with it |
| ReorgExamples.AReorgCanLoseARow | ghoststake-backend/internal/store/ledger.go:33-85 | One where a row is lost for good: a reorg moves a log one block down, the re-read leaves it out because the old row holds its key, and the rollback of a second reorg deletes that row |
| DecoderHistory.AppendingDecodersExtend | ghoststake-backend/internal/indexer/events.go:217-233 | If every decoder only appends to what it produced before, each log's stored rows are a prefix of its new ones, which is all a replay needs |
| DecoderHistory.FlowsWereAppended | ghoststake-backend/internal/indexer/events.go:234-394 | The vault and pool decoders extend the balance-only decoders they replaced |
| DecoderHistory.FlowsInFrontWouldNotAppend | ghoststake-backend/internal/indexer/events.go:253-282 | Flows put in front of a transfer's balances would move the balances' record indices, and the replay would not be safe |
| Decoder.RecordsAreStamped | ghoststake-backend/internal/indexer/events.go:67-103 | Both kinds of record carry their own log's coordinates, numbered from zero for each kind |
| Decoder.OneKindPerLog | ghoststake-backend/internal/indexer/events.go:67-103 | A log of the deployed contracts becomes ledger entries or at most one round record, never both |
| DecoderLaws.LinesSayTheirLog | ghoststake-backend/internal/indexer/events.go:234-394 | A log puts a line in a book if and only if it is that book's log for that account, with the log's amount, signed as the book is, and the other party; none twice, and only an unreadable log is refused |
| DecoderLaws.RecordsNameTheirLog | ghoststake-backend/internal/indexer/events.go:67-103 | Every record names the contract, block, block time and transaction of its log; an entry is stored under its book's event and a round row under its contract's market; removed and unwatched logs leave nothing |
| DecoderLaws.MarketRowsReadBack | ghoststake-backend/internal/indexer/rounds.go:25-109 | No log of a market's rounds is dropped or loses anything: each becomes one row that reads back as the log, unless its round id or side does not fit, which is an error |
| DecoderLaws.OracleRowsReadBack | ghoststake-backend/internal/indexer/event_oracle.go:33-116 | The same for an event oracle's logs, unless one is about another market or round, or names no outcome |
| Books.BooksEqualTheReference | ghoststake-backend/internal/store/ledger.go:259-277 | Over the rows of any range of one chain, each account's shares are its balance in a token ledger run over the same Transfer logs (EIP-20, section "Events"), total shares are mints less burns, and scaled debt and supply are the signed sums of the pool's amounts |
| Books.BooksAfterAnyRun | ghoststake-backend/internal/store/ledger.go:33-85 | So they are after any run of cycles, crashes and reorgs, however often ranges were re-read |
| Books.FlowsMoveNoBalance | ghoststake-backend/internal/indexer/events.go:234-394 | Flow records never change any balance, whoever inserts them and however often |
| Projection.Project | ghoststake-backend/internal/ledger/rounds.go:211-251 | The loop over a map and an order list yields, per (market, round) in order of first appearance, the fold of that round's events sorted by block and log index |
| Projection.ProjectPositions | ghoststake-backend/internal/ledger/rounds.go:470-568 | The same for one account: a position exactly for each round the account staked in, which PositionHistory says in terms of the events |
| PositionHistory.APositionIsWhatTheEventsSay | ghoststake-backend/internal/ledger/rounds.go:470-560 | For any events in any order: a position exactly for a round the account staked in, with its stakes by side, claimed exactly when a claim names the account there, the amounts claimed added up, leveraged exactly when somebody else funded a stake, opened at its first event and last touched at its last |
| PositionHistory.APositionFollowsTheLogs | ghoststake-backend/internal/indexer/rounds.go:25-109 | Through decoding to text, storing in any order among other rounds, filtering, sorting and folding, all of that is what the logs say: the stakes on sides 0 and 1, the claims and the funders |
| ProjectionLaws.ProjectionsIgnoreOrder | ghoststake-backend/internal/ledger/rounds.go:204-251 | For events with distinct coordinates every permutation projects to the same rounds and positions |
| ProjectionLaws.RoundsAreIndependent | ghoststake-backend/internal/ledger/rounds.go:222-249 | A round and any position in it depend only on that (market, round)'s events |
| ProjectionLaws.RoundsAreThoseMentioned | ghoststake-backend/internal/ledger/rounds.go:211-251 | A round is reported exactly when some event mentions it, under its own market and number, stamped with the highest block that does |
| ProjectionLaws.RoundsComeInOrder | ghoststake-backend/internal/ledger/rounds.go:211-251 | The rounds listed are those mentioned, each once, in the order of their first logs |
| ProjectionLaws.PositionsAddUpToPools | ghoststake-backend/internal/ledger/rounds.go:253-276 | Summed over all accounts the positions hold exactly the round's two pools |
| ProjectionLaws.ReportedClaimsAreBounded | ghoststake-backend/internal/httpx/market_handlers.go:468-472 | Over all accounts, what is reported as claimable and what the accounts shown as having claimed were owed come to at most the pool less the rake of a resolved round and are short of it by less than one unit a winner; exactly the pool of a void one; nothing otherwise |
| RoundHistory.TheReportIsTheLastWord | ghoststake-backend/internal/ledger/rounds.go:253-346 | Through decoding to text, storing in any order among other rounds, sorting and folding, the reported status, times, level, verdict, reason, pools and question (its state, outcome, oracle, proposer and evidence, challenge, ruling and times) are those of the latest log that says so; the pools are the stakes logged on sides 0 and 1, the winner is up or down as the last resolution says 0 or 1, and the outcome none, yes or no as 0, 1 or 2 |
| RoundHistory.FoldReports | ghoststake-backend/internal/indexer/rounds.go:25-109 | The same for one round's rows as they are folded, one log at a time, from the market and from its event oracle |
| RoundHistory.SignedNumbersReadBack | ghoststake-backend/internal/ledger/rounds.go:415-429 | Numbers written with a sign read back as themselves |
| Activity.ActivityFor | ghoststake-backend/internal/store/activity.go:43-164 | A page is the newest `limit` rows older than the cursor, with a next cursor on its last row exactly when there are more |
| Activity.PagingIsExact | ghoststake-backend/internal/store/activity.go:43-164 | For every limit, following cursors lists every row of the first snapshot once, newest first, and ends, whatever newer rows arrive between pages |
| Activity.NextPageStartsWhereThisEnded | ghoststake-backend/internal/store/activity.go:154-163 | Reading on from a page's cursor gives exactly what that page left |
| ActivityHistory.HistoryIsComplete | ghoststake-backend/internal/store/activity.go:43-164 | Reading to the end shows one item for each flow entry and each round event of the account and nothing else, field by field, newest first by block, log and record, while newer rows may arrive |
| ActivityHistory.HistoryOfAChain | ghoststake-backend/internal/store/activity.go:43-164 | So over the rows of any span of one chain, for every account and page size |
| ActivityRows.CoordinatesAreUnique | ghoststake-backend/internal/store/activity.go:24-29 | Over both tables of one chain no two rows of an account share coordinates |
| CursorText.ParseUndoesText | ghoststake-backend/internal/ledger/activity.go:84-120 | Parsing a printed cursor gives it back when it fits the widths, and refuses it at the first part that does not |
| CursorText.AcceptedCursorsRoundTrip | ghoststake-backend/internal/ledger/activity.go:93-120 | Whatever spelling is accepted is in range and stable under printing and reading again |
| CursorText.OnlySpellingsAreAccepted | ghoststake-backend/internal/ledger/activity.go:93-120 | Nothing but three decimal numbers that fit their widths, joined by dashes, is accepted, white space around them aside |
| CursorText.SpellingsAreAccepted | ghoststake-backend/internal/ledger/activity.go:93-120 | And every such spelling is, with white space and leading zeros not mattering |
| CursorText.TextIsInjective | ghoststake-backend/internal/ledger/activity.go:89-91 | No two cursors share a spelling |
| LendingLaws.SettlingOftenNeverPays | ghoststake-backend/internal/finance/lending.go:60-77 | Settling at any n checkpoints never raises the ledger value at a later time and lowers it by at most n |
| LendingLaws.CheckpointedYield | ghoststake-backend/internal/finance/lending.go:60-67 | What n checkpoints bank is at most one settlement's yield and short of it by at most n-1 |
| LendingLaws.AccruingOftenNeverLosesInterest | ghoststake-backend/internal/finance/lending.go:132-143 | Accruing at any n checkpoints leaves the index at the end at least the single-accrual index less n |
| LendingLaws.DebtOnlyGrows | ghoststake-backend/internal/finance/lending.go:104-149 | Debt never falls with time and pending interest is never negative nor falls |
| LendingLaws.MaxBorrowableIsExact | ghoststake-backend/internal/finance/lending.go:189-195 | A further borrow fits under maxLTV if and only if it does not exceed MaxBorrowable |
| LendingLaws.BorrowingTheMaximumIsSafe | ghoststake-backend/internal/finance/lending.go:164-195 | Borrowing a whole positive MaxBorrowable leaves the health factor at or above one when maxLTV is at most the threshold |
| LendingLaws.UnderwaterIsAWriteOff | ghoststake-backend/internal/httpx/health_handlers.go:258-262 | A position owing more than its shares redeem for is quoted full, unprofitable, repaying everything and seizing all |
| LendingLaws.WriteOffNeedsTheSharesRead | ghoststake-backend/internal/finance/lending.go:87-89 | The other branch: with no shares value the comparison always holds, and the quote is the write-off one if and only if the health factor is below both one and the full-liquidation line |
| LendingLaws.CappedLiquidationExactly | ghoststake-backend/internal/finance/lending.go:366-404 | After a capped quote's repayment and seizure collateral over debt is no worse, through every floor, if the collateral covers the debt with the bonus, and when something is repaid and the seizure was not floored, only if it does |
| LendingLaws.CappedLiquidationDoesNotHurt | ghoststake-backend/internal/finance/lending.go:366-404 | Above the full-liquidation line it always covers that and collateral over debt is never worse; the same on the line, when the line lost nothing to flooring |
| LendingLaws.OnARoundedLineItCanHurt | ghoststake-backend/internal/finance/lending.go:366-404 | Exactly on a line that was rounded down it need not: an input with parameters the vault accepts, where the position is left worse |
| LendingFigures.FiguresAreTheRates | ghoststake-backend/internal/finance/lending.go:60-149 | Yield, index growth and debt are their rates over the seconds since the last settlement or accrual, rounded down, and time that runs backwards is none |
| LendingFigures.CollateralIsTheLesser | ghoststake-backend/internal/finance/lending.go:69-102 | Collateral is the ledger value, capped by what the shares redeem for when that is known |
| LendingFigures.HealthIsTheRatio | ghoststake-backend/internal/finance/lending.go:151-250 | The health factor is collateral at the threshold over debt; a position is liquidatable if and only if it owes more than that; bands are cut at 1.2 and 1.5; loan to value stays within maxLTV while the debt does |
| LendingFigures.AQuoteFollowsTheTerms | ghoststake-backend/internal/finance/lending.go:366-404 | A quote is empty for a healthy position; the whole debt may be repaid if and only if the health factor is under the threshold grossed up by the bonus, otherwise the close factor's share; the seizure is that and its bonus, or all the shares; it pays if and only if more is seized than repaid |
| AccrualMargin.MarginIsSufficient | ghoststake-frontend/src/lib/accrual.ts:21-30 | While rate times elapsed is at most a thousandth, accrued debt is at most stored debt plus the margin, through both floors |
| AccrualMargin.MarginNeedsAnIndex | ghoststake-frontend/src/lib/accrual.ts:28-30 | That needs the index to be at least its start, as the pool's always is: under a lower one a debt that reads as zero would escape the margin |
| AccrualMargin.PayOffClears | ghoststake-frontend/src/lib/accrual.ts:32-40 | Repay-all clears the accrued debt if and only if the wallet holds that much |
| AccrualMargin.HeadroomStillFits | ghoststake-frontend/src/lib/accrual.ts:42-49 | Borrowing a whole positive headroom still fits under maxLTV, and under the ceiling recomputed after accrual |
| LendingFigures.AllowancesAreTight | ghoststake-frontend/src/lib/accrual.ts:21-49 | The margin is no more than a thousandth and one unit; repaying all overpays by no more than it, and the headroom gives up exactly it |
| Parimutuel.AClaimIsTheShare | ghoststake-backend/internal/finance/rounds.go:122-144 | A claim is the stake's share of the pool less the rake, rounded down, and a refund the stake; a position that has claimed is owed nothing, whatever the status |
| Parimutuel.OnlyTheUnclaimedAreOwed | ghoststake-backend/internal/finance/rounds.go:122-144 | For any mix of claimed and unclaimed positions what is owed is what the unclaimed ones alone are owed |
| Parimutuel.PayoutsConserveThePool | ghoststake-backend/internal/finance/rounds.go:122-144 | What a resolved round still owes and what its claimed positions were owed fit in the pool less the rake, and with n winners fall short by at most n-1, whoever has claimed |
| Parimutuel.VoidRefundsThePool | ghoststake-backend/internal/finance/rounds.go:122-144 | A void refunds exactly the pool, each stake once, and an unsettled round nothing |
| Parimutuel.OddsNeverOverstate | ghoststake-backend/internal/finance/rounds.go:84-144 | A stake times the quoted odds never exceeds what a claim pays and understates it by at most ceil(stake/WAD) |
| Strike.StrikeIsNearSpot | ghoststake-backend/internal/keeper/strike.go:31-66 | A strike is a positive multiple of its step, within half a step of spot unless spot is below half a step, and within 1/200 of any spot of one unit or more |
| Strike.TheStepKeepsThreeDigits | ghoststake-backend/internal/keeper/strike.go:31-66 | The step keeps the first three digits of a price of one unit or more and is a hundredth of a unit below that; only a price that is not positive has no strike |
| Strike.StrikeIsMonotone | ghoststake-backend/internal/keeper/strike.go:31-66 | Higher prices never get lower strikes, across every digit-count boundary |
| Strike.StrikeIsIdempotent | ghoststake-backend/internal/keeper/strike.go:31-66 | A strike is its own strike, also when rounding carried into the next decade |
| Feed.FindCloseRoundFrom | ghoststake-backend/internal/keeper/feed.go:76-128 | The binary search in place returns what its recursive form returns, with at most ceil(log2(latestID)) reads and one more |
| Feed.FindCloseRound | ghoststake-backend/internal/keeper/feed.go:57-67 | The same after reading the newest round first |
| Feed.AnswerIsABoundaryPair | ghoststake-backend/internal/keeper/feed.go:17-45 | On any feed, monotone or not, a returned id holds data at or before the close and its successor data strictly after |
| Feed.MonotoneSearchIsComplete | ghoststake-backend/internal/keeper/feed.go:17-56 | On a readable monotone feed an id is returned if and only if it is the boundary pair below the head, and nil if and only if there is none |
| Feed.OrderlyFeedsAreMonotone | ghoststake-backend/internal/keeper/feed.go:17-45 | Feeds empty below their first round with timestamps that never go back are monotone at every close |
| Feed.AnswerDependsOnTheHeadOnly | ghoststake-backend/internal/keeper/feed.go:76-128 | Nothing above the head changes the answer |
| KeeperRules.ActionsAreAccepted | ghoststake-backend/internal/keeper/rules.go:105-144 | An action is proposed if and only if the contract takes one, and never one it would refuse; past a deadline it is the void |
| KeeperRules.MarketsAreValidatedExactly | ghoststake-backend/internal/keeper/keeper.go:181-202 | A market is driven if and only if polls come more often than its lock window and, where rounds are to be opened, the horizon leaves an entry window (the configured one, or half) longer than the cutoff and something to watch after it |
| KeeperRules.SchedulesAreCheckedExactly | ghoststake-backend/internal/keeper/rules.go:180-195 | A schedule is let through if and only if it does not open in the past, its round takes entries the moment it opens, and its lock leaves something to watch; otherwise the first of those is the problem |
| KeeperRules.AcceptedMarketsCanBeScheduled | ghoststake-backend/internal/keeper/keeper.go:181-202 | A market that passed validation never has its planned schedule refused, at any time, and the planned round takes entries |
| KeeperRules.BackoffFitsTheLockWindow | ghoststake-backend/internal/keeper/keeper.go:204-224 | Three waits of the backoff limit fit in every driven market's lock window of three seconds or more, and it is the longest limit between one second and thirty of which that is so |
| Keeper.Keeper.DriveMarket | ghoststake-backend/internal/keeper/keeper.go:559-613 | The loop over rounds, updating the keeper's maps in place, leaves this market's desk and sends these transactions as specified, and changes nothing of any other market |
| Keeper.Keeper.FindSettlementRound | ghoststake-backend/internal/keeper/keeper.go:715-788 | The memoised search in place, as specified |
| Keeper.Keeper.RefreshMarkets | ghoststake-backend/internal/keeper/keeper.go:350-444 | A registry read does to every market, driven or not, exactly what its seat's rule says, and records why a listing is refused; a failed read changes nothing |
| Keeper.Keeper.RetireFinished | ghoststake-backend/internal/keeper/keeper.go:447-462 | Every retiring market with nothing pending is dropped, and no other |
| Keeper.Keeper.ForgetMarket | ghoststake-backend/internal/keeper/keeper.go:466-485 | Afterwards no cursor, pending, retiring, refusal, backoff, memo or rejection of that market is left, and every other market's is as it was |
| Keeper.Keeper.Tick | ghoststake-backend/internal/keeper/keeper.go:487-500 | Every driven market gets one pass at the same clock and the finished ones leave; an unread clock changes nothing |
| Keeper.NewKeeper | ghoststake-backend/internal/keeper/keeper.go:145-179 | Starting up fails if and only if no market is given, the poll interval is zero or some market cannot be driven; otherwise every desk is empty |
| KeeperCursor.CursorIsAShortcut | ghoststake-backend/internal/keeper/keeper.go:559-613 | From the cursor or from round 1 a pass sends the same transactions in the same order, leaves the same desk and decides alike on opening, also when the loop never runs |
| KeeperCursor.PassKeepsSound | ghoststake-backend/internal/keeper/keeper.go:559-613 | A pass keeps every round below the cursor settled for good, and bookkeeping only for rounds from the cursor up, while the contract moves under it |
| KeeperCursor.PassReport | ghoststake-backend/internal/keeper/keeper.go:572-608 | A complete pass notes something pending if and only if some round was not settled when read, moves the cursor to the first such round, and an incomplete one keeps its previous answer |
| KeeperRuns.EveryRunIsGood | ghoststake-backend/internal/keeper/keeper.go:232-270 | In every state of every run of polls and registry reads, all rounds below the cursor are settled and a retiring market has something pending |
| KeeperRuns.ReachablePassesMayUseTheCursor | ghoststake-backend/internal/keeper/keeper.go:559-613 | So in every reachable state a pass may start from the cursor |
| KeeperRuns.DelistingIsSafe | ghoststake-backend/internal/keeper/keeper.go:350-462 | At any point of any run a known market leaves only delisted and with its latest complete pass finding every counted round settled; since then the keeper has opened at most the one round of that pass, and none at all when the market was retiring |
| KeeperRuns.RetiringMarketsGetNoRound | ghoststake-backend/internal/keeper/keeper.go:615-633 | From when it is retiring until it is listed again, no run opens a round on a market |
| KeeperRuns.ListedMarketsStay | ghoststake-backend/internal/keeper/keeper.go:350-444 | A market is taken on by the first registry read that lists it drivable, and a listed one is driven and not retiring for as long as every read lists it |
| KeeperRuns.ADelistingDropsExactlyWhen | ghoststake-backend/internal/keeper/keeper.go:366-397 | At any point of any run a delisting drops the market at once if and only if it was there from start-up and no pass has got through yet, or the latest complete one found every counted round settled, whatever that pass then opened and however many incomplete ones followed; otherwise it is kept, retiring |
| KeeperRuns.AnOpenRoundCanBeStranded | ghoststake-backend/internal/keeper/keeper.go:603-613 | An input where it strands an open round |
| KeeperRuns.AnUnseenMarketIsDropped | ghoststake-backend/internal/keeper/keeper.go:366-397 | A market driven from start-up that no pass has got through, however many incomplete ones it had, is dropped as soon as it is delisted |
| KeeperSettlement.MemoAgrees | ghoststake-backend/internal/keeper/keeper.go:755-768 | With an append-only feed and every round below the head readable, the remembered search gives the answer a fresh one would |
| KeeperSettlement.ReachableMemosAgree | ghoststake-backend/internal/keeper/keeper.go:755-768 | That holds in every reachable state |
| KeeperSettlement.ReachablePollsAreWarranted | ghoststake-backend/internal/keeper/keeper.go:680-711 | In every reachable state a price round is resolved only at the boundary of its close with the adapter's consent, and, on an orderly feed with a strict adapter, refunded as unsettled only if the adapter accepts no feed round at that moment |
| KeeperSettlement.ReachablePollsSettle | ghoststake-backend/internal/keeper/keeper.go:680-711 | In every reachable state the next poll that reaches a round to be settled, off backoff and on a readable, orderly feed, sends what it calls for: the resolve at the boundary the adapter accepts or, when a refund is due and there is none it accepts, the owner's refund |
| KeeperActions.PassSendsWhatIsDue | ghoststake-backend/internal/keeper/keeper.go:635-660 | Every transaction of a pass is one the contract takes for the round as read, at most one a round in rising order, and a new round comes last and only when the newest takes no entries, with a schedule and strike that fit |
| KeeperActions.ScanMissesNothing | ghoststake-backend/internal/keeper/keeper.go:572-601 | A round due a lock or a void and off backoff gets it in every pass that reaches it |
| KeeperActions.OpeningIsNotMissed | ghoststake-backend/internal/keeper/keeper.go:790-874 | When everything an opening needs holds and it is off backoff, the pass does open a round |
| KeeperActions.AnUnopenedRoundHasItsReason | ghoststake-backend/internal/keeper/keeper.go:790-874 | A pass that sets out to open a round notes whether somebody else owns the market and what the gate refused for |
| KeeperActions.BackoffGrowsToItsLimit | ghoststake-backend/internal/keeper/keeper.go:966-982 | The delay starts at the poll interval, doubles for eight failures and never falls or passes the limit; KeeperBackoff says that it is waited for |
| KeeperBackoff.ReadyExactlyWhenRested | ghoststake-backend/internal/keeper/keeper.go:929-989 | At any point of any run an action is ready if and only if it has not failed since it last landed, or the wall has come to that of its latest failure plus the poll interval doubled by each failure in a row before it, eight times at most and within the limit |
| KeeperBackoff.NothingIsSentTooSoon | ghoststake-backend/internal/keeper/keeper.go:635-711 | No poll of any run sends an action before that; except that a resolve past its deadline waits for the refund's failures instead of its own |
| KeeperBackoff.AResolvePastItsDeadlineDoesNotWait | ghoststake-backend/internal/keeper/keeper.go:635-711 | An input where it is sent again by the very next poll |
| KeeperActions.ScreensAgreeWithTheKeeper | ghoststake-backend/internal/finance/rounds.go:43-71 | Once its open time has come a round is shown open exactly while the keeper wants no other; entry is shown closed whenever a lock or void is proposed |
| PseudoReturns.ReturnsExactlyWhen | ghoststake-frontend/src/i18n/pseudo.ts:36-64 | The transformation returns if and only if one of its first 2|m|+1 readings of the message gets to the end, where an unclosed `<` starts the next reading inside the branches then open |
| PseudoReturns.OpenTagsNeverReturn | ghoststake-frontend/src/i18n/pseudo.ts:45-51 | With every tag closed it returns; with an unclosed tag read in no branch it never does; and on a message that reads no `}` outside every branch it returns if and only if every tag is closed |
| PseudoReturns.AnOpenTagMayReturn | ghoststake-frontend/src/i18n/pseudo.ts:45-51 | A message with an unclosed tag on which it returns |
| PseudoReturns.AnOpenTagMayHang | ghoststake-frontend/src/i18n/pseudo.ts:45-51 | And one on which it does not |
| Pseudo.PseudoMessage | ghoststake-frontend/src/i18n/pseudo.ts:32-100 | On every message on which the source returns, the recursive descent over shared position and letter count yields what a machine that moves character by character, counting open branches, renders, with the wrapper and its padding |
| Pseudo.Transformer.Text | ghoststake-frontend/src/i18n/pseudo.ts:36-64 | From any text position it reads to the end or to the brace closing its branch, however often an unclosed tag takes it back to the start, rendering exactly the characters read on the way |
| Pseudo.Transformer.Argument | ghoststake-frontend/src/i18n/pseudo.ts:66-97 | From a brace it reads to the matching one, or to the end of the message with the closers owed |
| PseudoLaws.OnlyTextIsChanged | ghoststake-frontend/src/i18n/pseudo.ts:34-97 | When every tag is closed, a character of the body differs from the message if and only if it is a letter in text position; names, types, selectors, tags, quotes and # are untouched |
| PseudoLaws.PseudoIsInvertible | ghoststake-frontend/src/i18n/pseudo.ts:1-20 | Whenever it returns, undoing accents, bracket and padding gives the message back if and only if it held no letter of the table's own, every tag is closed and every branch it opened was closed |
| PseudoLaws.BalancedMessagesRoundTrip | ghoststake-frontend/src/i18n/pseudo.ts:1-20 | Balanced braces and whole tags are enough for it to return and be undone |
| PseudoMessages.MessagesAreAccented | ghoststake-frontend/src/i18n/pseudo.ts:32-100 | A well-formed message (text, tags, values, formats, and plurals and selects nested to any depth) comes out as the same message with its text accented and everything else as it was, padded by the letters of that text |
| PseudoMessages.WhatHoldsText | ghoststake-frontend/src/i18n/pseudo.ts:66-97 | The branches of plurals, selects and ordinals are text, with white space around the word or without; numbers, dates and times are not |
| PseudoMessages.PaddingIsAboutAThird | ghoststake-frontend/src/i18n/pseudo.ts:98-115 | The padding is the least number of dots, two or more, that adds 35 to every hundred letters |

## Left out

- Integer widths: heights, indices, timestamps and amounts are unbounded, so a sum past 2^64, a timestamp past 2^63 read back through Int64, and a log or record index past its column are not modelled; the cursor's own widths are. A cursor record index from 32768 to 65535 parses here as it does in the source, where the query's SMALLINT would then refuse it.
- Convergence.TablesNameTheirChain: says nothing of runs in which a decoder upgrade and a reorg overlap; ReplayReorg shows why.
- Replay.ReplayEqualsFreshIndex: the chain only grows from the upgrade to the end of the replay, for the same reason.
- RereadGuard.MuteEndpointsCostNothing: needs no row above the cursor; during a replay rows are there.
- Pseudo.PseudoMessage: works on characters where the source works on UTF-16 units, which it copies alike outside ASCII, and pads by ceil(35 n / 100) where the source multiplies by the nearest double to 0.35. The size of the engine's call stack is not modelled: a message on which the source recurses without end is one on which it does not return.
- PseudoMessages.PaddingIsAboutAThird: 35 in a hundred exactly, where the source multiplies by a double.
- Projection.ProjectPositions: returns a map; the source's final sort mixes round ids and blocks and is not an order.
- Activity.ActivityFor: the rows come in as the two tables' lists; SQL, JSON and amount parsing are not part of this model.
- Keeper.Keeper.Tick: one wall-clock reading a pass for all backoffs, and the answers of a pass are given round by round, so the chain may move during it; the transactions of each market are returned where the source only sends them.
- Keeper.Keeper.RefreshMarkets: the listing is what the registry answered; a market's horizon is read afresh with each pass, because the source's market cache updates it even when a later listing fails to load.
- Preflight other than the replay (fingerprint, legacy cursor adoption, attribution of old rows), publishing to the websocket broker and its freshness.
- ABI unpacking and field types: decoders start from typed events, and one malformed event is one error case.
- Addresses are canonical strings, so case-insensitive comparison is equality; hashes are numbers; pointers are options only where the source distinguishes nil.
- assertRangeServed beyond what it answers: that a header's filter is sound is taken as given.
- Isolation of several deployments in one database: rollback and the row count filter by chain id only.
- The open gate, trading sessions, feed liveness, gas balance and logging: the gate is one answer of a pass.
- Signing, RPC, configuration, HTTP routing and the contracts themselves, which appear only as the transitions and guards the Go comments describe.
- `pseudoCatalog`, which applies `pseudoMessage` to every leaf of a tree.
- The risk list: a filter over the health figures.
