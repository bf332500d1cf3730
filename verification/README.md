# Verified model of the cluchess game server

A Dafny 4.11 model of the durable core of the cluchess server and of the services around it,
with proofs of what they promise. `dafny verify dfyconfig.toml` checks everything.

## What is modelled

The rows of one game (`games`, `game_players`, `moves`, `game_commands`) form an *aggregate*.
Each transaction of the repositories is a decision over the rows it reads under the game's row
lock; the decision is a *plan*, the statements it then issues in order.

| module | what it holds |
|---|---|
| `Domain`, `GameClock`, `ChessEngine` | outcome derivation and transition table; the Fischer clock and its two SQL copies; replay and evaluation over an abstract rules engine |
| `GameRows` | rows, requests, answers, and the plan of every transaction |
| `GameInvariant`, `GameMoves`, `GameHistory` | the invariant of one game, its preservation by every transaction, growth, endings and acceptance |
| `GameEndings`, `GameCommands`, `GameTiming`, `EndedClocks`, `GameTable`, `GameDeadlines` | when and for whom a game ends, exactly-once commands, clock conservation, final clocks, the transition table, deadlines |
| `GameDatabase` | many games, the match index, the active-game assignments, sessions; allocation; whole runs |
| `GameStore` | the repositories as an object whose transactions change the tables statement by statement |
| `GameResets` | what a reset ends, and that a revoked guest is assigned nothing new |
| `Interleaving`, `InterleavedRuns` | any number of transactions in flight under READ COMMITTED and row locks, reduced to serial runs; endings, retried commands and resets among them |
| `GuardedJob`, `DeadlineScheduler`, `GameServices`, `GameRoom` | the flag that keeps a job from overlapping itself; the generation-guarded timers and the sweep; adjudication and announcements; readiness |
| `Snapshots`, `EphemeralState`, `Recovery`, `Reconciliation` | presentation, the Redis mirror, serving cached snapshots, the repair job |
| `Sessions`, `Presence`, `RateLimit` | tokens and revocation keys, multi-socket presence, the fixed-window limiter |

Where the source changes state the model does too: `GameStore.Store`, `EphemeralState.Cache`,
`Reconciliation.Reconciler`, `DeadlineScheduler.Service`, `GameServices.Lifecycle`,
`GameRoom.Room`, `Sessions.Service`, `Presence.Service` and `RateLimit.Service` are objects whose methods are
proved equal to functions of the old state; the properties are proved about those functions
and about whole runs of them.

## Assumptions

- Instants are integer milliseconds; PostgreSQL's clock is read in microseconds and truncated,
  as a JavaScript `Date` does. Every transaction's instant is arbitrary: nothing assumes that
  the clock never goes back, except where a statement says so.
- The chess library is a record of functions (`Rules`). `Rules.Faithful` says what is assumed
  of it: the standard initial position is valid with white to move; the move it reports, fed
  back at the same position, is that move again; its colour is the side to move, and the other
  side moves next; legal moves have well-formed squares and a non-empty notation.
- Integer columns are 32 bits wide: a clock that does not fit, or an elapsed time that does
  not survive the cast in the locking statement, fails the transaction. So does the row
  constraint that a game cannot end before it started. A failed transaction has no effect.

## Findings

Each is proved with its exact condition.

- A turn older than 2147483647 ms (about 24.8 days) makes the cast in `lockGameClock` overflow,
  so resignation, reset, timeout and abandonment all fail for ever
  (`GameDeadlines.OverdueExample`, `DueGamesEndExactly`, `OverdueGameNeverEnds`).
- `lockGameClock` does not clamp a negative elapsed time, the domain clock does
  (`GameClock.SqlProjectionAgrees`). An ending locked before its turn began stores more time
  than the domain clock shows, and can leave a side above everything it was granted
  (`EndedClocks.LockBeforeTheTurn`, `WithinGrantExactly`).
- The repositories commit two steps the transition table does not have: a reset of a game that
  has not started, and a reconnect while the other player is away
  (`GameTable.StepsFollowTheTable`, `ExceptionsAreReal`).
- A revocation key is sure to outlive a token of its session, restores and repeated revocations
  included, exactly when the token expires no later than the session row
  (`Sessions.RevocationCoversExactly`, `RevocationCoversInTimeOrder`). A renewal writes the row from its own issuance, so a
  renewal issued earlier but committed later leaves an older token uncovered
  (`IssuanceMustNotGoBack`); and a restore, which knows only the row, can shorten a key that
  covered it (`RestoreShortensTheKey`). Issuance in order of whole seconds is enough for every
  token to be covered (`RevocationOutlivesTokens`); the token presented to a revocation is
  denied by its own identifier in any case (`TokenStaysRevokedExactly`).
- After a loss of Redis, maintenance skips revoked sessions whose row has expired although
  their token still verifies for the clock skew (`Sessions.RestoreCoversExactly`,
  `MaintenanceComesTooLate`).
- The limiter is slightly stricter than twice the limit: at most 2 x limit - 1 commands in any
  interval of one window (`RateLimit.LetThroughIsBounded`).

## Model

| member | source | states |
|---|---|---|
| Domain.DerivationRefusesExactly | src/modules/game/domain/terminal-result.ts:41-134 | outcome derivation throws exactly for a winnerless checkmate, a draw with a winner or a non-board reason, an abandonment by nobody, and a no-show after both joined |
| Domain.DerivationIsCoherent | src/modules/game/domain/terminal-result.ts:41-151 | every derived outcome is coherent: the status fits the termination, the result fits the winner, and the losing side of the event is the opposite of the winner |
| Domain.PathsOnlyAdvance | src/modules/game/domain/game-state-machine.ts:40-137 | no path through the transition table lowers the version; away from CREATED every step raises it by one; nothing leaves a terminal status or returns to CREATED |
| GameClock.TimeoutTestsAgree | src/modules/game/domain/game-clock.ts:103-188 | the clock deadline, the flag-fall check, the refusal of a move, the clock view at zero and the clock clause of the due query agree, exactly when the observation is not before the turn or the clock still shows time |
| GameClock.SqlProjectionAgrees | src/modules/persistence/transaction.service.ts:101-142 | the projection of the locking statement reaches zero exactly when the deadline has passed, and is the view of the domain exactly when the observation is not before the turn start: the SQL does not clamp a negative elapsed time |
| GameClock.SqlProjectionFailsExactly | src/modules/persistence/transaction.service.ts:113-140 | the INTEGER cast of the elapsed milliseconds fails the locking statement exactly when they, or the remainder computed from them, leave the 32-bit range |
| GameClock.SqlElapsedIsMillisecondElapsed | src/modules/persistence/transaction.service.ts:115-123 | the floor of the microsecond difference, taken in milliseconds, is the difference of the two whole-millisecond instants |
| GameClock.PausedIntervalIsFree | src/modules/game/domain/game-clock.ts:57-101 | a clock paused and resumed later shows at every instant what the unpaused clock would have shown that much earlier: the paused interval is charged to nobody |
| ChessEngine.UciRoundTrip | src/modules/chess/infrastructure/chessjs.engine.ts:111 | printing a move as UCI and slicing it back are inverse to each other, promotions included |
| ChessEngine.ReplayHistory | src/modules/chess/infrastructure/chessjs.engine.ts:195-225 | the replay loop reaches the position of the replay function and fails at exactly the first move that is not UCI or not legal |
| ChessEngine.EvaluateMove | src/modules/chess/infrastructure/chessjs.engine.ts:45-119 | evaluating a move equals its specification: replay, position check, shape of the proposal, legality, then the verdict on the position reached |
| ChessEngine.AcceptedMoveReplays | src/modules/chess/infrastructure/chessjs.engine.ts:45-71 | the UCI stored for an accepted move, appended to the history, replays to exactly the position the evaluation reported |
| ChessEngine.GameOverDerives | src/modules/chess/infrastructure/chessjs.engine.ts:141-175 | every game-over verdict of the engine, tested in its order, is one the outcome derivation accepts, checkmate won by the side that moved |
| ChessEngine.ReplayFailureIsFinal | src/modules/chess/infrastructure/chessjs.engine.ts:195-225 | a history whose prefix does not replay never replays, whatever follows, and fails the same way |
| GameInvariant.FreshAggregateOk | src/modules/game/infrastructure/prisma-game.repository.ts:373-415 | a newly allocated game satisfies the whole invariant |
| GameInvariant.LogIsContiguous | src/modules/game/infrastructure/prisma-gameplay.repository.ts:552-554 | in a consistent game plies are 1..n and the contiguity test passes |
| GameInvariant.LogEntry | src/modules/game/infrastructure/prisma-gameplay.repository.ts:309-339 | every stored move: colour alternating from white, made by that side, its position before and after those reached by replaying the moves up to it |
| GameInvariant.FinalizeKeeps | src/modules/game/infrastructure/prisma-game-lifecycle.repository.ts:616-670 | ending a live game off the board, by any derivable event, keeps every part of the invariant |
| GameMoves.SubmitShape | src/modules/game/infrastructure/prisma-gameplay.repository.ts:176-476 | a submission either writes exactly the accepted plan, when it is admitted and playable, or writes nothing at all |
| GameMoves.AdmittedClockAccounts | src/modules/game/infrastructure/prisma-gameplay.repository.ts:271-305 | on consistent rows the clock never throws; it admits exactly the moves that arrive before the flag falls, a first move from READY starting at its own instant |
| GameMoves.ApplyKeeps | src/modules/game/infrastructure/prisma-game-lifecycle.repository.ts:100-426 | every transaction of the closed set, on any consistent game, at any instant, keeps the whole invariant: statuses and nullable columns, players and graces, clock accounting, the replayable log, the position, and the commands |
| GameHistory.StepGrows | src/modules/game/infrastructure/prisma-game-lifecycle.repository.ts:616-670 | a transaction never changes identity, only extends moves and commands, moves the version exactly when it writes the game row, ends a game exactly when it announces a first ending and drops the assignments, and leaves an ended game row for row as it was |
| GameHistory.RunOfOneGame | src/modules/game/game-lifecycle.service.ts:166-185 | over any run of transactions the invariant holds, the game only grows, and its ending is announced exactly once if it ended and never otherwise |
| GameHistory.AcceptedExactly | src/modules/game/infrastructure/prisma-gameplay.repository.ts:176-345 | a move is accepted exactly when the lock succeeds, the guest is to move, the id is new, the game is live and at the expected version, the flag has not fallen, the clock fits its column, the move is legal, and a game it ends does not end before it started |
| GameHistory.TooLateExactly | src/modules/game/infrastructure/prisma-gameplay.repository.ts:279-305 | a move is refused as too late exactly when everything asked before the clock holds and the mover has used all the time the clock still showed |
| GameHistory.NeverCorrupt | src/modules/game/infrastructure/prisma-gameplay.repository.ts:262-345 | no request on a consistent game is answered with a corruption error: the contiguity, clock, replay, position and engine-turn branches are unreachable |
| GameHistory.AcceptedMoveEffects | src/modules/game/infrastructure/prisma-gameplay.repository.ts:347-473 | what an accepted move writes, in the game's own terms: charged clock and increment, turn, position, version, start, termination exactly when the board ended, winner of a mate, and one move row |
| GameEndings.EndsExactly | src/modules/game/infrastructure/prisma-game-lifecycle.repository.ts:127-614 | resignation, reset, timeout, no-show and abandonment each end a consistent game exactly under their own condition, given that the lock succeeds and the end is not before the start |
| GameEndings.EndingNamesTheWinner | src/modules/game/infrastructure/prisma-game-lifecycle.repository.ts:582-670 | the resigning, resetting, overdue or absent side loses, a no-show is won by whoever joined, both absent void the game; announcement and final row say the same |
| GameEndings.ReconnectUndoesDisconnect | src/modules/game/infrastructure/prisma-game-lifecycle.repository.ts:244-303 | disconnecting and reconnecting restores every row but for two versions and the connection time, even while the other player stays away |
| GameCommands.AcceptanceIsStored | src/modules/game/infrastructure/prisma-gameplay.repository.ts:464-475 | an acceptance is stored under its id, which was free; a command that changes anything is an acceptance |
| GameCommands.RetryReturnsStored | src/modules/game/infrastructure/prisma-gameplay.repository.ts:218-228 | a retry by the same guest returns the stored answer marked as duplicate and changes nothing, unless the locking statement itself fails |
| GameCommands.ForeignReuseIsRefused | src/modules/game/infrastructure/prisma-game-lifecycle.repository.ts:705-722 | an id belongs to one command: another kind or another guest is refused and changes nothing |
| GameCommands.ExactlyOnce | src/modules/game/infrastructure/prisma-game-lifecycle.repository.ts:555-613 | whatever runs between acceptance and retry, the end of the game included, the retry returns the original answer as a duplicate and changes nothing |
| GameCommands.MovesAndCommandsCorrespond | src/modules/game/infrastructure/prisma-gameplay.repository.ts:445-473 | MOVE commands and move rows are in one-to-one correspondence and no id is used by two moves |
| GameTiming.TimeIsUsedOnce | src/modules/game/infrastructure/prisma-gameplay.repository.ts:418-438 | at nondecreasing arrivals the time both sides used adds up to the time from the start to the last move |
| GameTiming.ClocksAreConserved | src/modules/game/domain/game-clock.ts:103-132 | white + black + (last move - start) = 2 x initial + n x increment after n moves at nondecreasing times, in every consistent game still running or ended on the board, disconnects and reconnects included |
| GameTiming.RunsConserveTime | src/modules/game/domain/game-clock.ts:103-132 | the same law over runs: after any transactions in the order of their instants on a new game, whatever they ask, a game that has started and still runs or ended on the board accounts for every millisecond granted |
| GameTiming.RunIsPunctual | src/modules/game/infrastructure/prisma-gameplay.repository.ts:418-438 | after any transactions in the order of their instants the arrivals in the log are in order, none before the start and none after the last instant |
| GameTiming.EachSideIsAccounted | src/modules/game/domain/game-clock.ts:227-255 | each side shows exactly initial + its own moves x increment - its own time, is at least 1 ms while the game runs and never exceeds initial + its own moves x increment |
| EndedClocks.WithinGrantExactly | src/modules/game/infrastructure/prisma-game-lifecycle.repository.ts:628-641 | in every reachable game, ended or not, a side shows at most initial + its own moves x increment exactly unless the game was ended off the board on its turn at an instant earlier than the turn start by more than all the time the side had used; and an ending off the board stores exactly the unclamped projection |
| EndedClocks.InTimeOrderWithinGrant | src/modules/persistence/transaction.service.ts:113-123 | when instants never go back no side of any game, ended or not, ever shows more than it was granted |
| EndedClocks.LockBeforeTheTurn | src/modules/persistence/transaction.service.ts:113-123 | a reachable run: an opening move at 5 ms and a resignation locked at 4 ms leave black 300001 ms of 300000 although it never moved, while the domain clock shows 300000 |
| GameTiming.EndedClocksAreTheViewedClocks | src/modules/game/infrastructure/prisma-game-lifecycle.repository.ts:628-641 | an ending off the board stores for both sides what the domain clock shows at that instant, for observations not before the turn |
| GameTiming.FirstMoveIsStartThenMove | src/modules/game/infrastructure/prisma-gameplay.repository.ts:347-439 | a first move out of READY commits the same rows as START followed by the move at the same instant, but for the start announcement inside the stored acknowledgement |
| GameTable.StepsFollowTheTable | src/modules/game/domain/game-state-machine.ts:40-182 | every committed step is a path of the transition table with the same version change and an outcome the table accepts, exactly unless it is a reset before the start or a reconnect while the other player is away |
| GameTable.ExceptionsAreReal | src/modules/game/domain/game-state-machine.ts:40-101 | no path of the table, however long, abandons a game that has not started in one version, and the only path that keeps RECONNECTING in one version is a disconnect |
| GameDeadlines.DueExactlyWhenDeadlinePassed | src/modules/game/infrastructure/prisma-game-lifecycle.repository.ts:428-503 | ignoring its limit, the due query returns exactly the games whose next deadline has passed |
| GameDeadlines.DeadlineExistsExactly | src/modules/game/infrastructure/prisma-game-lifecycle.repository.ts:428-465 | in every consistent game a deadline exists exactly while waiting for players, in progress or reconnecting; READY has none |
| GameDeadlines.DueGamesEndExactly | src/modules/game/infrastructure/prisma-game-lifecycle.repository.ts:306-358 | a game due by its join or clock deadline is ended by adjudication exactly when the turn is at most 2147483647 ms old and the end is not before the start; the outcome always derives |
| GameDeadlines.OverdueTurnIsStuck | src/modules/persistence/transaction.service.ts:113-140 | a turn older than that makes every transaction but readiness fail without effect |
| GameDeadlines.OverdueGameNeverEnds | src/modules/persistence/transaction.service.ts:95-152 | from then on no sequence of transactions ever changes the game row: the game can never be ended |
| GameDeadlines.OverdueExample | src/modules/game/infrastructure/prisma-game-lifecycle.repository.ts:306-333 | a reachable game left alone for thirty days is due and cannot be adjudicated |
| GameDeadlines.AbandonmentEndsExactly | src/modules/game/infrastructure/prisma-game-lifecycle.repository.ts:385-426 | grace adjudication ends a game exactly when it is reconnecting, every player named is recorded as disconnected, and the grace of one of them is over |
| GameDeadlines.AbandonmentDerives | src/modules/game/infrastructure/prisma-game-lifecycle.repository.ts:398-423 | both named void the game, one named loses to the other, nobody named is refused |
| GameDeadlines.DisconnectBookkeeping | src/modules/game/infrastructure/prisma-game-lifecycle.repository.ts:207-294 | RECONNECTING exactly while some player is away; away and grace set together; the game deadline is the earliest grace, none when nobody is away |
| GameDatabase.RunIsSound | src/modules/game/infrastructure/prisma-game.repository.ts:335-417 | every run of allocations, transactions, session changes and clean-ups of expired sessions keeps the store invariant, games only grow, and the match index is never rewritten |
| GameDatabase.AssignmentsAreExact | src/modules/game/infrastructure/prisma-game.repository.ts:366-390 | in every reachable store the assignments are exactly the pairs of a guest and the unfinished game it plays; so no guest is in two active games |
| GameDatabase.AllocationsOfOneMatchAgree | src/modules/game/infrastructure/prisma-game.repository.ts:345-353 | after one allocation of a match, whatever runs, every later one inserts nothing and is granted exactly when it names that game and those players, in either colour; what it returns has the original colours |
| GameDatabase.StaleAssignmentIsHarmless | src/modules/game/infrastructure/prisma-game-lifecycle.repository.ts:130-166 | a request routed by an assignment that has since gone finds its game ended, changes nothing and announces nothing |
| GameDatabase.EndedExactlyOnce | src/modules/game/game-lifecycle.service.ts:166-185 | over any run from an empty store the end of each game is announced exactly once if it ended, else never |
| GameDatabase.TerminalGamesAreFrozen | src/modules/game/infrastructure/prisma-game-lifecycle.repository.ts:616-670 | once ended, a game keeps its row, players, moves and commands for ever and no assignment to it reappears |
| GameDatabase.CommandsAreExactlyOnce | src/modules/game/infrastructure/prisma-gameplay.repository.ts:509-539 | exactly-once over whole runs of the whole store |
| GameDatabase.RetriesAfterTheEndSucceed | src/modules/persistence/transaction.service.ts:109-142 | once the game has ended, as it has when the command itself ended it, a retry never fails and always returns the stored answer |
| GameStore.Store.AllocateGame | src/modules/game/infrastructure/prisma-game.repository.ts:79-417 | the allocation transaction, statement by statement, leaves the tables and answers as specified |
| GameStore.Store.MarkGameReady | src/modules/game/infrastructure/prisma-game.repository.ts:419-486 | the readiness transaction equals its specification; its version guard never misses |
| GameStore.Store.StartGameIfReady | src/modules/game/infrastructure/prisma-game.repository.ts:488-522 | the start transaction equals its specification; its version guard never misses |
| GameStore.Store.SubmitGameMove | src/modules/game/infrastructure/prisma-gameplay.repository.ts:176-305 | the checks before the engine, in order, equal the specification of a submission |
| GameStore.Store.PlayMove | src/modules/game/infrastructure/prisma-gameplay.repository.ts:307-345 | the engine part of a submission equals its specification |
| GameStore.Store.CommitMove | src/modules/game/infrastructure/prisma-gameplay.repository.ts:347-475 | game row, move, assignments and command are written as specified |
| GameStore.Store.Resign | src/modules/game/infrastructure/prisma-game-lifecycle.repository.ts:523-614 | the resignation transaction equals its specification |
| GameStore.Store.TerminateGuestForReset | src/modules/game/infrastructure/prisma-game-lifecycle.repository.ts:127-166 | the reset transaction, routed by the guest's assignment, equals its specification |
| GameStore.Store.MarkGuestDisconnected | src/modules/game/infrastructure/prisma-game-lifecycle.repository.ts:168-242 | the disconnect transaction equals its specification |
| GameStore.Store.MarkGuestReconnected | src/modules/game/infrastructure/prisma-game-lifecycle.repository.ts:244-304 | the reconnect transaction equals its specification |
| GameStore.Store.AdjudicateGameTimeout | src/modules/game/infrastructure/prisma-game-lifecycle.repository.ts:306-333 | the timeout transaction equals its specification |
| GameStore.Store.AdjudicateGameNoShow | src/modules/game/infrastructure/prisma-game-lifecycle.repository.ts:335-358 | the no-show transaction equals its specification |
| GameStore.Store.AdjudicateGameAbandonment | src/modules/game/infrastructure/prisma-game-lifecycle.repository.ts:385-426 | the abandonment transaction equals its specification |
| GameStore.Store.FinalizeTerminal | src/modules/game/infrastructure/prisma-game-lifecycle.repository.ts:616-670 | the guarded final update, the cleared disconnect columns and the dropped assignments |
| GameStore.Store.LockGame | src/modules/persistence/transaction.service.ts:95-152 | the locking statement: no row, a failed projection, or the projected row |
| GameStore.Store.UpdateGameAtVersion | src/modules/persistence/transaction.service.ts:154-172 | the guarded update changes the row, and reports one row changed, exactly when the version matches |
| GameStore.HasContiguousHistory | src/modules/game/infrastructure/prisma-gameplay.repository.ts:552-554 | the loop answers whether every ply is its index plus one |
| GameStore.AbsentPlayers | src/modules/game/infrastructure/prisma-game-lifecycle.repository.ts:398-415 | the named players in slot order, and whether one of them is here or past the grace |
| Interleaving.InterleavingsAreSerial | src/modules/persistence/transaction.service.ts:34-73 | every interleaving, statement by statement, of any number of transactions and allocations, aborts included, leaves the store that running the committed ones whole and in commit order leaves, and keeps the invariant |
| Interleaving.StaleBranchesAreUnreachable | src/modules/game/infrastructure/prisma-game-lifecycle.repository.ts:224-234 | in every reachable system no version guard misses, no unique constraint fires, no transaction is stale, and what was read is still stored: the player row written before the guard is never a partial write |
| Interleaving.LateTransactionsChangeNothing | src/modules/game/infrastructure/prisma-game-lifecycle.repository.ts:130-164 | a transaction whose game has ended by the time it commits, for instance between its assignment read and its lock, changes nothing and announces nothing |
| Interleaving.CommitIsAtomic | src/modules/game/infrastructure/prisma-game.repository.ts:423-477 | a commit has exactly the effect and the answer of the whole transaction on the store at that moment |
| Interleaving.InsertIsAtomic | src/modules/game/infrastructure/prisma-game.repository.ts:335-417 | an allocation's insert has exactly the effect of the whole allocation at that moment, and the assignment keys it checked are still free |
| Interleaving.NoDeadlock | src/modules/persistence/transaction.service.ts:75-93 | session rows locked in id order and one row lock per game transaction: while any transaction is unfinished, one of them waits for nobody |
| Interleaving.UnblockedMovesOn | src/modules/persistence/transaction.service.ts:34-73 | a transaction that waits for nobody moves strictly closer to its end |
| InterleavedRuns.EndingIsCommittedOnce | src/modules/game/game-lifecycle.service.ts:166-185 | however transactions interleave, the commits whose answer announces a new ending of a game number one if it has ended and none otherwise |
| InterleavedRuns.RetryCommitsTheStoredAnswer | src/modules/game/infrastructure/prisma-gameplay.repository.ts:509-539 | once a command has been accepted by a commit, every other transaction carrying it, begun before or after it and run alongside anything, commits with the stored answer and changes nothing, unless its locking statement fails |
| InterleavedRuns.RetriesAfterTheEndCommit | src/modules/game/infrastructure/prisma-gameplay.repository.ts:509-539 | the same under any interleaving without the failing case, once the game has ended or if the command itself ended it |
| InterleavedRuns.ResetGuestStaysOut | src/modules/session/session.service.ts:203-225 | once a session row is revoked and a reset begun after that has found no assignment, or has committed without failing, the guest is in no active game in any continuation that leaves the row revoked, allocations already in flight included |
| InterleavedRuns.SystemBars | src/modules/game/infrastructure/prisma-game.repository.ts:355-371 | a revoked guest is assigned nothing new under any interleaving: an allocation past its eligibility check holds the session row |
| GameResets.ResetEndsTheGame | src/modules/game/infrastructure/prisma-game-lifecycle.repository.ts:127-166 | a reset leaves the game it was routed to over exactly unless the game was live and the locking statement failed or the end would come before the start |
| DeadlineScheduler.Service.BeginSchedule | src/modules/game/game-deadline.service.ts:51-56 | scheduling up to its await equals the state-machine step |
| DeadlineScheduler.Service.FinishSchedule | src/modules/game/game-deadline.service.ts:56-75 | scheduling after its await equals the state-machine step, failed reads included |
| DeadlineScheduler.Service.Cancel | src/modules/game/game-deadline.service.ts:77-80 | cancelling equals the state-machine step |
| DeadlineScheduler.Service.Fire | src/modules/game/game-deadline.service.ts:131-137 | a timeout equals the state-machine step and goes on exactly when its generation is current |
| DeadlineScheduler.Service.AfterAdjudication | src/modules/game/game-deadline.service.ts:139-150 | after an adjudication the game is cancelled if it ended, else rescheduled |
| DeadlineScheduler.SweepsTakeTurns | src/modules/game/game-deadline.service.ts:82-120 | in every run a sweep has handed to adjudication exactly the games it read so far, each once and in the order of the query; nothing else ever runs under its name |
| DeadlineScheduler.SweepsNeverOverlap | src/modules/game/game-deadline.service.ts:82-120 | under every interleaving of entries, reads, adjudications and exits at most one sweep is between its entry and its end |
| DeadlineScheduler.Service.SweepNextGame | src/modules/game/game-deadline.service.ts:91-107 | one turn of the loop hands the next due game on and equals the state-machine step |
| GuardedJob.RunsNeverOverlap | src/modules/game/game-reconciliation.service.ts:211-252 | the running flag, tested and raised before the first await and lowered at the end, admits a run exactly when none is under way, and the job is never locked out for good |
| DeadlineScheduler.AtMostOneLiveTimer | src/modules/game/game-deadline.service.ts:131-137 | under every interleaving a game has at most one live timer, and a timer that fires is never stale |
| DeadlineScheduler.LiveTimerIsLatest | src/modules/game/game-deadline.service.ts:51-68 | however the deadline reads resolve, the live timer of a game was installed by its most recently started scheduling, and none is live after a cancel |
| DeadlineScheduler.CancelIsFinal | src/modules/game/game-deadline.service.ts:77-80 | after a cancel no earlier scheduling can ever install a timer |
| DeadlineScheduler.HopDecreases | src/modules/game/game-deadline.service.ts:60-63 | each hop that does not reach the deadline leaves strictly fewer |
| DeadlineScheduler.DeadlineIsReached | src/modules/game/game-deadline.service.ts:60-68 | a deadline any distance away is reached within ceil(distance / 2147483647) hops, however late each timer runs |
| DeadlineScheduler.NoOvershoot | src/modules/game/game-deadline.service.ts:60-63 | no timer is armed past the deadline unless the minimum delay asks for it |
| GameServices.Lifecycle.AdjudicateGame | src/modules/game/game-lifecycle.service.ts:106-152 | no-show, timeout and abandonment run in order, with whatever other requests do while each is awaited, stop at the first ending, clear the keys of an ended game and announce it once |
| GameServices.Lifecycle.CompleteTerminal | src/modules/game/game-lifecycle.service.ts:166-185 | an ending clears its keys and is announced unless it is a replay |
| GameServices.Lifecycle.ResignGame | src/modules/game/game-lifecycle.service.ts:40-58 | a resignation clears the keys of its game and is announced once, on its first acceptance |
| GameServices.Lifecycle.FindGraceState | src/modules/game/infrastructure/prisma-game-lifecycle.repository.ts:360-383 | the players of a reconnecting game whose grace is over |
| GameServices.AdjudicationAnnouncesItsEnding | src/modules/game/game-lifecycle.service.ts:106-152 | one adjudication, with any other requests between its transactions, announces an ending exactly when it ends the game as the others left it, once, as the final row says; otherwise the store is as the others left it |
| GameServices.OnlyTheAbsentAreNamed | src/modules/game/game-lifecycle.service.ts:119-147 | abandonment is asked only of players absent from presence, and only when one of those is past the recorded grace |
| GameRoom.Room.Ready | src/modules/game/game-room.service.ts:57-102 | mark, start, view and reschedule, with whatever other requests do while each is awaited; the cached snapshot is dropped exactly on a start, the timers change exactly on success |
| GameRoom.ReadyNeverStalls | src/modules/game/game-room.service.ts:57-95 | the mark connects and joins the player and nothing else; whatever runs before the start, a game found READY is started and announced with full clocks, any other is left as it was, and no call that goes on leaves a game READY |
| GameRoom.ReadySucceedsExactly | src/modules/game/game-room.service.ts:57-154 | a call succeeds exactly if its mark is accepted and, when that makes the game ready, the locking statement of the start succeeds, whatever runs in between; it then shows the game as it stands, and no consistency error can occur |
| GameRoom.ScheduledExactly | src/modules/game/game-deadline.service.ts:51-75 | scheduling a game of a consistent store from start to end leaves it a live timer exactly while it waits or runs, due at its deadline or at the longest delay a timer can wait |
| GameRoom.ReadyIsAcceptedExactly | src/modules/game/infrastructure/prisma-game.repository.ts:442-454 | readiness is refused exactly to strangers, to finished games, and at a wrong version unless both have joined |
| Snapshots.ViewNeverFails | src/modules/game/game-room.service.ts:128-153 | a consistent game can always be viewed: the inconsistent-clock branch is unreachable |
| Snapshots.FinishedViewIsTimeless | src/modules/game/game-snapshot.presenter.ts:13-52 | a finished game is presented alike at every instant, but for the server time |
| EphemeralState.Cache.ClearActiveGame | src/modules/game/game-ephemeral-state.service.ts:46-84 | compare-and-clear of a pointer, and when it reports a change |
| EphemeralState.Cache.RestoreActiveGame | src/modules/game/game-ephemeral-state.service.ts:187-216 | pointer and user state set |
| EphemeralState.Cache.ReadSnapshot | src/modules/game/game-ephemeral-state.service.ts:86-116 | the cached version and payload of one player, none on a miss |
| EphemeralState.Cache.RestoreSnapshot | src/modules/game/game-ephemeral-state.service.ts:218-282 | the entry, pointers, states and graces written in order equal the specification |
| EphemeralState.Cache.InspectAllocation | src/modules/game/game-ephemeral-state.service.ts:118-172 | the inspection loop reports exactly the drift of the four kinds of key |
| EphemeralState.Cache.AfterGameEnded | src/modules/game/game-ephemeral-state.service.ts:305-328 | after an ending the snapshot, the graces and the players' queue guards go, and pointers only if they are the game's own |
| EphemeralState.EndedGameLeavesNoKeys | src/modules/game/game-ephemeral-state.service.ts:46-84 | after the clean-up of an ending nothing of the game is left, a player still pointing at it is idle, and a player already in another game keeps pointer and state |
| EphemeralState.RestoredHasNoDrift | src/modules/game/game-ephemeral-state.service.ts:218-265 | restoring an active game leaves it without drift at that instant |
| EphemeralState.RestoredLeavesOthers | src/modules/game/game-ephemeral-state.service.ts:218-265 | restoring a game touches no key of a game with other players |
| Recovery.ServedHitsAreFresh | src/modules/game/game-recovery.service.ts:81-110 | in every run, stale captured snapshots on their way to the cache included, a snapshot served from the cache is then and ever after what would be built afresh for that guest, but for the server time |
| Recovery.FinishedEntriesAlwaysHit | src/modules/game/game-recovery.service.ts:94-109 | a cached payload of a finished game always passes the durable version and status check |
| Recovery.RecoverSnapshot | src/modules/game/game-recovery.service.ts:76-130 | one recovery, cached or rebuilt, answers with the game's own snapshot: to the letter while it is active, up to the server time once it ended |
| Recovery.BuildSnapshot | src/modules/game/game-room.service.ts:104-154 | the rebuilt snapshot, its error cases, and the cache entry written with it |
| Reconciliation.PageIsNextPart | src/modules/game/infrastructure/prisma-game.repository.ts:178-201 | a keyset page read at a cursor is exactly the next part of the listing |
| Reconciliation.CycleVisitsEachOnce | src/modules/game/game-reconciliation.service.ts:95-103 | with the table unchanged one cycle is the number of active games / batch + 1 runs, visits every active game exactly once in order, and ends with a fresh cursor |
| Reconciliation.ActivePlayersAreDisjoint | src/modules/game/infrastructure/prisma-game.repository.ts:366-390 | two active games have no player in common |
| Reconciliation.RepairsFixAll | src/modules/game/game-reconciliation.service.ts:105-142 | repairing distinct active games leaves none of them drifted: later restores never undo earlier ones |
| Reconciliation.ReportCountsInitialDrift | src/modules/game/game-reconciliation.service.ts:110-141 | the report counts each drift that was there before the repairs exactly once |
| Reconciliation.RepointedAreExact | src/modules/game/game-reconciliation.service.ts:158-190 | every scanned pointer becomes the durable one, the others stay |
| Reconciliation.CycleLeavesNoDrift | src/modules/game/game-reconciliation.service.ts:74-143 | one cycle ends with no drift in any active game, whatever Redis held before and whatever the scans returned |
| Reconciliation.Reconciler.ReconcileDurableGames | src/modules/game/game-reconciliation.service.ts:88-143 | the page the query returns at the cursor is repaired and counted, and the cursor moves on or starts afresh, as specified |
| Reconciliation.Reconciler.ReconcileActiveKeys | src/modules/game/game-reconciliation.service.ts:145-191 | what one scan returns, cut to the batch and without keys that name no guest, is repaired and counted, and the scan cursor moves on, as specified |
| Reconciliation.Reconciler.RunOnce | src/modules/game/game-reconciliation.service.ts:74-86 | a run is a page and then a scan |
| Reconciliation.Reconciler.RunSafely | src/modules/game/game-reconciliation.service.ts:211-252 | a run gets in exactly when none is under way, reconciles once and leaves the flag for the next; a run turned away changes nothing |
| Sessions.IssuedClaimsVerify | src/modules/session/jwt-token.service.ts:81-168 | claims just created always issue and verify at once, and verify until exactly their expiry plus the clock skew |
| Sessions.RevocationCoversExactly | src/modules/session/session-revocation.service.ts:38-87 | over runs: in every continuation of a run that revoked a session, restores and repeated revocations included, at every instant at which a token of it verifies while the session has a key, that key is still there, if and only if the token expires no later than the session row |
| Sessions.RevocationCoversInTimeOrder | src/modules/session/session-revocation.service.ts:38-87 | the same condition for continuations in time order, from any instant before the row expires at which the token has begun to verify |
| Sessions.TokenStaysRevokedExactly | src/modules/session/session-revocation.service.ts:25-70 | the same with the denial of identifiers: once a revocation of its session has been recorded, a token is turned away in every continuation at every instant at which it verifies, exactly when it expires no later than the row or its own identifier was denied |
| Sessions.KeyCovers | src/modules/session/session-revocation.service.ts:97-102 | a key outlives its expiry by the skew, and by less than one second more |
| Sessions.RevocationOutlivesTokens | src/modules/session/session-revocation.service.ts:38-70 | when the whole-second issuance times of a session do not go back in the order they commit, every token of a revoked session is covered in every continuation |
| Sessions.IssuanceMustNotGoBack | src/modules/session/infrastructure/prisma-guest-session.repository.ts:96-110 | a run where issuance goes back five seconds and a token verifies after the revocation key is gone |
| Sessions.RestoreShortensTheKey | src/modules/session/session-revocation.service.ts:72-87 | a run of five events in which revocation sets a key that covers the token and a later maintenance restore, which knows only the row, shortens it: the token verifies from then on |
| Sessions.RestoreCoversExactly | src/modules/session/session-maintenance.service.ts:115-131 | after the keys were lost, restoring denies a revoked session's last token for good exactly outside the skew after its expiry |
| Sessions.MaintenanceComesTooLate | src/modules/session/session-maintenance.service.ts:115-131 | a reachable run: created, reset, no key, and a maintenance five seconds after the row expired restores nothing while the token still verifies |
| Sessions.RevokedIsFinal | src/modules/session/infrastructure/prisma-guest-session.repository.ts:93-166 | a revoked session row never changes again |
| Sessions.Service.CreateSession | src/modules/session/infrastructure/prisma-guest-session.repository.ts:28-72 | creation, replayed keys included, equals its specification |
| Sessions.Service.RenewSession | src/modules/session/infrastructure/prisma-guest-session.repository.ts:74-134 | renewal, replayed keys included, equals its specification |
| Sessions.Service.ResetSession | src/modules/session/infrastructure/prisma-guest-session.repository.ts:136-189 | reset, replayed keys included, equals its specification |
| Sessions.Service.RevokeSession | src/modules/session/session-revocation.service.ts:38-70 | the session key is set for the later of the two expiries, the key of the token identifier for the token's own |
| Sessions.Service.RestoreRevocation | src/modules/session/session-revocation.service.ts:72-87 | a live revoked row has its key restored |
| Sessions.Service.IsRevoked | src/modules/session/session-revocation.service.ts:25-36 | revoked exactly while the key of the session or of the token identifier is there |
| Presence.Service.Refresh | src/modules/presence/presence.service.ts:33-65 | prune, add, extend: the key, the count and the queue guard |
| Presence.Service.Remove | src/modules/presence/presence.service.ts:67-94 | prune, remove, delete when empty |
| Presence.Service.Count | src/modules/presence/presence.service.ts:96-117 | prune, count, delete when empty |
| Presence.Service.IsPresent | src/modules/presence/presence.service.ts:119-121 | present exactly when some live socket is found |
| Presence.PresenceIsExact | src/modules/presence/presence.service.ts:33-121 | after any run in time order what every command finds is exactly the sockets refreshed less than the time-to-live ago and not removed: the key's own expiry evicts no live member |
| Presence.RemoveAnswersZeroExactly | src/modules/presence/presence.service.ts:67-94 | removing a socket answers zero exactly when no other socket is live |
| RateLimit.Service.Consume | src/modules/realtime/realtime-rate-limit.service.ts:48-83 | count, verdict and retry delay of one command |
| RateLimit.FirstOfWindowAreAccepted | src/modules/realtime/realtime-rate-limit.service.ts:57-67 | within one window exactly the first `limit` commands are accepted |
| RateLimit.CountersAreIndependent | src/modules/realtime/realtime-rate-limit.service.ts:37-45 | each counter follows its own arrivals alone |
| RateLimit.LetThroughIsBounded | src/modules/realtime/realtime-rate-limit.service.ts:48-74 | for any arrivals of any commands and guests, fewer than twice the limit are let through for one scope and guest in any interval as long as the window |
| RateLimit.RetryAfterSuffices | src/modules/realtime/realtime-rate-limit.service.ts:67-74 | a command sent when the refusal said, with nothing in between, is accepted |

## Left out

- PostgreSQL and Redis failures, statement time limits and connection handling: a transaction is committed or absent, and a Redis command is answered.
- Transport, schemas of the wire protocol, delivery to sockets, metrics, logging and configuration parsing: only whether an ending is announced is modelled.
- Matchmaking queues: reservations are arbitrary inputs to allocation.
- The rules of chess, notation and the contents of positions: an abstract engine takes their place.
- Signatures, encodings and key files: only guests, times, lifetimes and identifiers of tokens are modelled. Identifiers drawn at random never repeat, and only an issued token is ever presented.
- Malformed rows that the table constraints already refuse (unknown colours or statuses, a game without exactly two players, a disconnect without a grace): not representable, so the branches that answer them are absent.
- The wrappers that catch a unique violation and look the stored command up: `Interleaving.StaleBranchesAreUnreachable` shows no unique constraint of moves or commands ever fires.
- Interleaving.InterleavingsAreSerial: an allocation inserts and commits in one step, the lock on a session row that does not exist yet is taken on its id, and a game with its players and moves is read by one query. What the committed transactions answer is in `Interleaving.CommitIsAtomic` and `InterleavedRuns`.
- Interleaving.NoDeadlock: the waits are those on the two explicit row locks; the key-share locks that foreign keys take on `guest_sessions` when rows naming a guest are inserted, and waits on a unique key another transaction has inserted but not committed, are outside the wait relation.
- GameDeadlines.DueExactlyWhenDeadlinePassed: the row limit of the query is ignored, so nothing is said about which due games a sweep sees first.
- DeadlineScheduler.AtMostOneLiveTimer: clearing all timers at shutdown is not a step.
- Reconciliation.CycleLeavesNoDrift: one cycle is taken at one instant, so no key expires in the middle of it.
- Sessions.Service.CreateSession: conflicts of generated display names, and the retries they cause, are not modelled.
- Sessions.RevocationOutlivesTokens: one clock for the application and Redis.
- Presence.PresenceIsExact: one clock for the application, which writes the scores, and Redis, which expires the key.
- Recovery.ServedHitsAreFresh: a cached payload parses back to what was stored; names and avatars never change.
- The version-guarded general update of the game repository, which nothing calls.
