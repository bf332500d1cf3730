/** The repositories as objects that change their tables statement by statement.  Each
    transaction issues its statements in source order and is proved to leave the tables as
    the specification of that transaction says. */
module GameStore {
  import opened Domain
  import opened GameClock
  import opened ChessEngine
  import opened GameRows
  import opened GameDatabase

  /** What the locking statement returned: no row, a failed statement, or the projected row. */
  datatype Lock = NoRow | LockFailed | Locked(row: LockedClock)

  class Store {
    const rules: Rules
    var games: map<GameId, Aggregate>
    var matchIndex: map<MatchId, GameId>
    var assignments: map<GuestId, GameId>
    var sessions: map<GuestId, Session>

    ghost function Contents(): Db
      reads this
    {
      Db(games, matchIndex, assignments, sessions)
    }

    constructor (rules: Rules)
      ensures this.rules == rules && Contents() == EmptyDb
    {
      this.rules := rules;
      games, matchIndex, assignments, sessions := map[], map[], map[], map[];
    }

    /** While a request awaits, other requests run to their ends. */
    method Await(others: seq<Call>)
      modifies this
      ensures Contents() == Run(rules, old(Contents()), others)
    {
      var left := Run(rules, Db(games, matchIndex, assignments, sessions), others);
      games, matchIndex, assignments, sessions := left.games, left.matchIndex, left.assignments, left.sessions;
    }

    // ----- single statements -----

    method LockGame(game: GameId, us: nat) returns (lock: Lock)
      ensures lock.NoRow? <==> game !in games
      ensures lock.LockFailed? <==> game in games && LockGameClock(games[game].game, us).None?
      ensures lock.Locked? ==> game in games && LockGameClock(games[game].game, us) == Some(lock.row)
    {
      if game !in games {
        return NoRow;
      }
      match LockGameClock(games[game].game, us) {
        case None => lock := LockFailed;
        case Some(row) => lock := Locked(row);
      }
    }

    /** UPDATE games ... WHERE id = game AND version = expectedVersion. */
    method UpdateGameAtVersion(game: GameId, expectedVersion: nat, row: GameRow) returns (count: nat)
      modifies this`games
      ensures count == (if game in old(games) && old(games)[game].game.version == expectedVersion then 1 else 0)
      ensures games == if count == 1 then old(games)[game := old(games)[game].(game := row)] else old(games)
    {
      count := 0;
      if game in games && games[game].game.version == expectedVersion {
        games := games[game := games[game].(game := row)];
        count := 1;
      }
    }

    method UpdatePlayer(game: GameId, color: Color, row: PlayerRow)
      requires game in games
      modifies this`games
      ensures games == old(games)[game := old(games)[game].WithPlayer(color, row)]
    {
      games := games[game := games[game].WithPlayer(color, row)];
    }

    method ClearDisconnects(game: GameId)
      requires game in games
      modifies this`games
      ensures games == old(games)[game := old(games)[game].(
                         white := Cleared(old(games)[game].white), black := Cleared(old(games)[game].black))]
    {
      games := games[game := games[game].(white := Cleared(games[game].white), black := Cleared(games[game].black))];
    }

    method DeleteAssignments(game: GameId)
      modifies this`assignments
      ensures assignments == WithoutGame(old(assignments), game)
    {
      assignments := WithoutGame(assignments, game);
    }

    method InsertMove(game: GameId, row: MoveRow)
      requires game in games
      modifies this`games
      ensures games == old(games)[game := old(games)[game].(moves := old(games)[game].moves + [row])]
    {
      games := games[game := games[game].(moves := games[game].moves + [row])];
    }

    method InsertCommand(game: GameId, id: EventId, command: Command)
      requires game in games
      modifies this`games
      ensures games == old(games)[game := old(games)[game].(commands := old(games)[game].commands[id := command])]
    {
      games := games[game := games[game].(commands := games[game].commands[id := command])];
    }

    // ----- allocation, readiness and start -----

    method AllocateGame(input: AllocateGame) returns (result: AllocationResult)
      modifies this
      ensures Contents() == Allocate(rules, old(Contents()), input)
      ensures result == AllocateAnswer(rules, old(Contents()), input)
    {
      if input.white == input.black {
        return Mismatch;
      }
      if input.matchId in matchIndex && matchIndex[input.matchId] in games {
        var existing := games[matchIndex[input.matchId]];
        return if MatchesReservation(existing, input) then Allocated(existing) else Mismatch;
      }
      var eligible := 0;
      if input.white in sessions
        && sessions[input.white].revokedAt.None? && sessions[input.white].expiresAt > input.observedAt {
        eligible := eligible + 1;
      }
      if input.black in sessions
        && sessions[input.black].revokedAt.None? && sessions[input.black].expiresAt > input.observedAt {
        eligible := eligible + 1;
      }
      if eligible != 2 {
        return NotEligible;
      }
      if input.white in assignments || input.black in assignments {
        return AlreadyInGame;
      }
      if input.gameId in games || !(0 < input.initialMs <= MAX_INT4 && 0 <= input.incrementMs <= MAX_INT4)
        || input.matchId in matchIndex {
        return AllocationFailed;
      }
      var allocation := NewGame(rules, input);
      games := games[input.gameId := allocation];
      matchIndex := matchIndex[input.matchId := input.gameId];
      assignments := assignments[input.white := input.gameId][input.black := input.gameId];
      return Allocated(allocation);
    }

    method MarkGameReady(game: GameId, guest: GuestId, expectedVersion: int, observedAt: int, ghost us: nat)
      returns (answer: Response)
      modifies this
      ensures Contents() == Transact(rules, old(Contents()), game, MarkReady(guest, expectedVersion, observedAt), us)
      ensures answer == TransactAnswer(rules, old(Contents()), game, MarkReady(guest, expectedVersion, observedAt), us)
    {
      if game !in games {
        return Rejected(GameNotFound, None);
      }
      var seen := games[game];
      var color := seen.ColorOf(guest);
      if color.None? {
        UnchangedGame(game);
        return Rejected(NotAPlayer, None);
      }
      var player := seen.Player(color.value);
      var status := seen.game.status;
      var idempotent := player.joinedAt.Some? && (status.Ready? || status.InProgress? || status.Reconnecting?);
      if expectedVersion != seen.game.version && !idempotent {
        UnchangedGame(game);
        return Rejected(StaleGameVersion, Some(seen.game.version));
      }
      if !(status.WaitingForPlayers? || status.Ready? || status.InProgress? || status.Reconnecting?) {
        UnchangedGame(game);
        return Rejected(GameUnavailable, None);
      }
      var joinedAt := if player.joinedAt.Some? then player.joinedAt else Some(observedAt);
      UpdatePlayer(game, color.value, player.(connectedAt := Some(observedAt), joinedAt := joinedAt));

      var joined := 0;
      if games[game].white.joinedAt.Some? {
        joined := joined + 1;
      }
      if games[game].black.joinedAt.Some? {
        joined := joined + 1;
      }
      if status.WaitingForPlayers? && joined == 2 {
        var count := UpdateGameAtVersion(game, seen.game.version,
                                         games[game].game.(status := Ready, version := games[game].game.version + 1));
        if count != 1 {
          assert false;
        }
      }
      return ReadyGame(games[game].game);
    }

    method StartGameIfReady(game: GameId, us: nat) returns (answer: Response)
      modifies this
      ensures Contents() == Transact(rules, old(Contents()), game, StartIfReady, us)
      ensures answer == TransactAnswer(rules, old(Contents()), game, StartIfReady, us)
    {
      var lock := LockGame(game, us);
      if lock.NoRow? {
        return Rejected(GameNotFound, None);
      } else if lock.LockFailed? {
        UnchangedGame(game);
        return TransactionFailed;
      }
      var locked := lock.row;
      UnchangedGame(game);
      if locked.status.Ready? {
        var count := UpdateGameAtVersion(game, locked.version, games[game].game.(
          startedAt := Some(locked.observedAt),
          status := InProgress,
          turnStartedAt := Some(locked.observedAt),
          version := games[game].game.version + 1));
        if count != 1 {
          assert false;
        }
      }
      return FoundGame(games[game].game, locked.status.Ready?);
    }

    // ----- endings -----

    /** Writes an outcome under the version guard, clears the disconnect columns and removes the assignments. */
    method FinalizeTerminal(game: GameId, seen: Aggregate, locked: LockedClock, outcome: TerminalOutcome)
      returns (submission: TerminalSubmission)
      requires game in games && games[game] == seen
      modifies this`games, this`assignments
      ensures Contents() == Commit(old(Contents()), game, PlanFinalize(seen, locked, outcome, None))
      ensures Ended(submission) == PlanFinalize(seen, locked, outcome, None).response
    {
      var version := seen.game.version + 1;
      var count := UpdateGameAtVersion(game, seen.game.version, seen.game.(
        blackClockMs := locked.blackClockMs,
        endedAt := Some(locked.observedAt),
        reconnectDeadlineAt := None,
        result := Some(outcome.result),
        status := outcome.status,
        termination := Some(outcome.termination),
        turnStartedAt := None,
        version := version,
        whiteClockMs := locked.whiteClockMs));
      if count != 1 {
        assert false;
      }
      ClearDisconnects(game);
      DeleteAssignments(game);
      submission := TerminalSubmission(
        false,
        EndedGame(
          GameplayClock(locked.whiteClockMs, locked.blackClockMs, None, locked.observedAt),
          seen.game.currentFen, version, seen.game.pgn, outcome.result, outcome.termination),
        (seen.white.guest, seen.black.guest));
    }

    /** Derives the outcome, then finalizes; a derivation error fails the transaction. */
    method FinalizeEvent(game: GameId, seen: Aggregate, locked: LockedClock, event: TerminalEvent)
      returns (answer: Response)
      requires game in games && games[game] == seen
      modifies this`games, this`assignments
      ensures Contents() == Commit(old(Contents()), game, PlanOutcome(seen, locked, event, None))
      ensures answer == PlanOutcome(seen, locked, event, None).response
    {
      UnchangedGame(game);
      var outcome := DeriveTerminalOutcome(event);
      if outcome.Err? || EndsBeforeStart(seen.game, locked.observedAt) {
        return TransactionFailed;
      }
      var submission := FinalizeTerminal(game, seen, locked, outcome.value);
      return Ended(submission);
    }

    method Resign(game: GameId, input: ResignGame, us: nat) returns (answer: Response)
      modifies this
      ensures Contents() == Transact(rules, old(Contents()), game, ResignRequest(input), us)
      ensures answer == TransactAnswer(rules, old(Contents()), game, ResignRequest(input), us)
    {
      var lock := LockGame(game, us);
      if lock.NoRow? {
        return Rejected(GameNotFound, None);
      }
      UnchangedGame(game);
      if lock.LockFailed? {
        return TransactionFailed;
      }
      var seen := games[game];
      var color := seen.ColorOf(input.guest);
      if color.None? {
        return Rejected(NotAPlayer, Some(seen.game.version));
      }
      if input.eventId in seen.commands {
        return ReplayResign(seen.commands[input.eventId], input.guest);
      }
      if !seen.game.status.InProgress? && !seen.game.status.Reconnecting? {
        return Rejected(GameAlreadyEnded, Some(seen.game.version));
      }
      if input.expectedVersion != seen.game.version {
        return Rejected(StaleGameVersion, Some(seen.game.version));
      }
      answer := FinalizeEvent(game, seen, lock.row, ResignationEvent(color.value));
      if answer.Ended? {
        InsertCommand(
          game, input.eventId, ResignCommand(input.guest, answer.terminal, answer.terminal.ended.gameVersion));
      }
    }

    method TerminateGuestForReset(guest: GuestId, us: nat) returns (answer: Response)
      modifies this
      ensures Contents() == if guest in old(assignments)
                            then Transact(rules, old(Contents()), old(assignments)[guest], TerminateForReset(guest), us)
                            else old(Contents())
      ensures answer == if guest in old(assignments)
                        then
                          TransactAnswer(rules, old(Contents()), old(assignments)[guest], TerminateForReset(guest), us)
                        else NoEvent
    {
      if guest !in assignments {
        return NoEvent;
      }
      var game := assignments[guest];
      var lock := LockGame(game, us);
      if lock.NoRow? {
        return NoEvent;
      }
      UnchangedGame(game);
      if lock.LockFailed? {
        return TransactionFailed;
      }
      var seen := games[game];
      if !(seen.game.status.InProgress? || seen.game.status.Ready? || seen.game.status.Reconnecting?
           || seen.game.status.WaitingForPlayers?) {
        return NoEvent;
      }
      var color := seen.ColorOf(guest);
      if color.None? {
        return NoEvent;
      }
      answer := FinalizeEvent(game, seen, lock.row, AbandonmentEvent([color.value]));
    }

    method AdjudicateGameTimeout(game: GameId, us: nat) returns (answer: Response)
      modifies this
      ensures Contents() == Transact(rules, old(Contents()), game, AdjudicateTimeout, us)
      ensures answer == TransactAnswer(rules, old(Contents()), game, AdjudicateTimeout, us)
    {
      var lock := LockGame(game, us);
      if lock.NoRow? {
        return NoEvent;
      }
      UnchangedGame(game);
      if lock.LockFailed? {
        return TransactionFailed;
      }
      var locked := lock.row;
      if !locked.status.InProgress? && !locked.status.Reconnecting? {
        return NoEvent;
      }
      var remaining := if locked.turnColor.White? then locked.whiteClockMs else locked.blackClockMs;
      if remaining > 0 {
        return NoEvent;
      }
      answer := FinalizeEvent(game, games[game], locked, TimeoutEvent(locked.turnColor));
    }

    method AdjudicateGameNoShow(game: GameId, us: nat) returns (answer: Response)
      modifies this
      ensures Contents() == Transact(rules, old(Contents()), game, AdjudicateNoShow, us)
      ensures answer == TransactAnswer(rules, old(Contents()), game, AdjudicateNoShow, us)
    {
      var lock := LockGame(game, us);
      if lock.NoRow? {
        return NoEvent;
      }
      UnchangedGame(game);
      if lock.LockFailed? {
        return TransactionFailed;
      }
      var locked := lock.row;
      if !locked.status.WaitingForPlayers? {
        return NoEvent;
      }
      var seen := games[game];
      if seen.game.joinDeadlineAt.None? || seen.game.joinDeadlineAt.value > locked.observedAt {
        return NoEvent;
      }
      var joined: seq<Color> := [];
      if seen.white.joinedAt.Some? {
        joined := joined + [White];
      }
      if seen.black.joinedAt.Some? {
        joined := joined + [Black];
      }
      assert joined == JoinedColors(seen);
      answer := FinalizeEvent(game, seen, locked, NoShowEvent(joined));
    }

    method AdjudicateGameAbandonment(game: GameId, absent: seq<GuestId>, us: nat) returns (answer: Response)
      modifies this
      ensures Contents() == Transact(rules, old(Contents()), game, AdjudicateAbandonment(absent), us)
      ensures answer == TransactAnswer(rules, old(Contents()), game, AdjudicateAbandonment(absent), us)
    {
      var lock := LockGame(game, us);
      if lock.NoRow? {
        return NoEvent;
      }
      UnchangedGame(game);
      if lock.LockFailed? {
        return TransactionFailed;
      }
      var locked := lock.row;
      if !locked.status.Reconnecting? {
        return NoEvent;
      }
      var seen := games[game];
      var colors, rows := AbsentPlayers(seen, absent);
      if rows == [] || (exists row :: row in rows && (row.disconnectedAt.None? || row.graceEndsAt.None?))
        || !(exists row :: row in rows && GraceExpired(row, locked.observedAt)) {
        return NoEvent;
      }
      answer := FinalizeEvent(game, seen, locked, AbandonmentEvent(colors));
    }

    // ----- disconnects -----

    method MarkGuestDisconnected(guest: GuestId, graceMs: nat, us: nat) returns (answer: Response)
      modifies this
      ensures Contents() == if guest in old(assignments)
                            then
                              Transact(
                                rules, old(Contents()), old(assignments)[guest], MarkDisconnected(guest, graceMs), us)
                            else old(Contents())
      ensures answer == if guest in old(assignments)
                        then
                          TransactAnswer(
                            rules, old(Contents()), old(assignments)[guest], MarkDisconnected(guest, graceMs), us)
                        else NoEvent
    {
      if guest !in assignments {
        return NoEvent;
      }
      var game := assignments[guest];
      var lock := LockGame(game, us);
      if lock.NoRow? {
        return NoEvent;
      }
      UnchangedGame(game);
      if lock.LockFailed? {
        return TransactionFailed;
      }
      var seen := games[game];
      var color := seen.ColorOf(guest);
      if color.None? {
        return NoEvent;
      }
      var player := seen.Player(color.value);
      if !seen.game.status.InProgress? && !seen.game.status.Reconnecting? {
        if seen.game.status.WaitingForPlayers? {
          UpdatePlayer(game, color.value, player.(connectedAt := None));
        }
        return NoEvent;
      }
      if player.disconnectedAt.Some? {
        return NoEvent;
      }
      var observedAt := lock.row.observedAt;
      var graceDeadline := observedAt + graceMs;
      var reconnectDeadlineAt := Earliest(Some(graceDeadline), seen.Player(color.value.Opposite()).graceEndsAt);
      UpdatePlayer(game, color.value, player.(
        connectedAt := None, disconnectedAt := Some(observedAt), graceEndsAt := Some(graceDeadline)));
      var count := UpdateGameAtVersion(game, seen.game.version, games[game].game.(
        reconnectDeadlineAt := reconnectDeadlineAt, status := Reconnecting, version := games[game].game.version + 1));
      if count != 1 {
        assert false;
      }
      return PlayerAway(color.value, seen.game.version + 1, graceDeadline);
    }

    method MarkGuestReconnected(guest: GuestId, us: nat) returns (answer: Response)
      modifies this
      ensures Contents() == if guest in old(assignments)
                            then Transact(rules, old(Contents()), old(assignments)[guest], MarkReconnected(guest), us)
                            else old(Contents())
      ensures answer == if guest in old(assignments)
                        then TransactAnswer(rules, old(Contents()), old(assignments)[guest], MarkReconnected(guest), us)
                        else NoEvent
    {
      if guest !in assignments {
        return NoEvent;
      }
      var game := assignments[guest];
      var lock := LockGame(game, us);
      if lock.NoRow? {
        return NoEvent;
      }
      UnchangedGame(game);
      if lock.LockFailed? {
        return TransactionFailed;
      }
      var seen := games[game];
      if !seen.game.status.Reconnecting? {
        return NoEvent;
      }
      var color := seen.ColorOf(guest);
      if color.None? {
        return NoEvent;
      }
      var player := seen.Player(color.value);
      if player.disconnectedAt.None? {
        return NoEvent;
      }
      UpdatePlayer(game, color.value, player.(
        connectedAt := Some(lock.row.observedAt), disconnectedAt := None, graceEndsAt := None));
      var remaining := seen.Player(color.value.Opposite()).graceEndsAt;
      var count := UpdateGameAtVersion(game, seen.game.version, games[game].game.(
        reconnectDeadlineAt := remaining,
        status := if remaining.None? then InProgress else Reconnecting,
        version := games[game].game.version + 1));
      if count != 1 {
        assert false;
      }
      return PlayerBack(color.value, seen.game.version + 1);
    }

    // ----- moves -----

    method SubmitGameMove(game: GameId, input: SubmitMove, us: nat) returns (answer: Response)
      modifies this
      ensures Contents() == Transact(rules, old(Contents()), game, Submit(input), us)
      ensures answer == TransactAnswer(rules, old(Contents()), game, Submit(input), us)
    {
      var lock := LockGame(game, us);
      if lock.NoRow? {
        return Rejected(GameNotFound, None);
      }
      UnchangedGame(game);
      if lock.LockFailed? {
        return TransactionFailed;
      }
      var seen := games[game];
      var version := Some(seen.game.version);
      var color := seen.ColorOf(input.guest);
      if color.None? {
        return Rejected(NotAPlayer, version);
      }
      if input.clientMoveId in seen.commands {
        return ReplayMove(seen.commands[input.clientMoveId], input.guest);
      }
      if seen.game.status.Terminal() {
        return Rejected(GameAlreadyEnded, version);
      }
      if !seen.game.status.InProgress? && !seen.game.status.Ready? {
        return Rejected(GameUnavailable, version);
      }
      if seen.game.turnColor != color.value {
        return Rejected(NotYourTurn, version);
      }
      if input.expectedVersion != seen.game.version {
        return Rejected(StaleGameVersion, version);
      }
      var contiguous := HasContiguousHistory(seen.moves);
      if !contiguous {
        return Rejected(GameStateCorrupt, version);
      }
      var admission := MoveAdmission(seen.game, color.value, lock.row.observedAt);
      if admission.Err? {
        return Rejected(GameStateCorrupt, version);
      }
      if admission.value.FlagFall? {
        return Rejected(ClockExpired, version);
      }
      answer := PlayMove(game, seen, input, color.value, admission.value.clock, lock.row.observedAt);
    }

    /** Replays the log, applies the move, and writes game, move, assignments and command. */
    method PlayMove(game: GameId, seen: Aggregate, input: SubmitMove, mover: Color, clock: Clock, observedAt: int)
      returns (answer: Response)
      requires game in games && games[game] == seen
      modifies this`games, this`assignments
      ensures Contents() ==
              Commit(old(Contents()), game, PlanEvaluatedMove(rules, seen, input, mover, clock, observedAt))
      ensures answer == PlanEvaluatedMove(rules, seen, input, mover, clock, observedAt).response
    {
      UnchangedGame(game);
      var version := Some(seen.game.version);
      var outcome := EvaluateMove(rules, seen.game.currentFen, seen.Ucis(), seen.game.initialFen, input.move);
      if outcome.Err? {
        return Rejected(if outcome.error.IllegalMove? then MoveIllegal else GameStateCorrupt, version);
      }
      var evaluation := outcome.value;
      if evaluation.applied.color != mover {
        return Rejected(GameStateCorrupt, version);
      }
      if clock.whiteMs > MAX_INT4 || clock.blackMs > MAX_INT4 {
        return TransactionFailed;
      }
      var terminal: Option<TerminalOutcome> := None;
      if evaluation.gameOver.Over? {
        var derived := DeriveTerminalOutcome(BoardEvent(evaluation.gameOver.reason, evaluation.gameOver.winner));
        if derived.Err? || (!seen.game.status.Ready? && EndsBeforeStart(seen.game, observedAt)) {
          return TransactionFailed;
        }
        terminal := Some(derived.value);
      }
      answer := CommitMove(game, seen, input, mover, clock, observedAt, evaluation, terminal);
    }

    method CommitMove(
      game: GameId, seen: Aggregate, input: SubmitMove, mover: Color, clock: Clock, observedAt: int,
      evaluation: Evaluation, terminal: Option<TerminalOutcome>)
      returns (answer: Response)
      requires game in games && games[game] == seen
      modifies this`games, this`assignments
      ensures Contents() ==
              Commit(
                old(Contents()), game, PlanAcceptedMove(seen, input, mover, clock, observedAt, evaluation, terminal))
      ensures answer == PlanAcceptedMove(seen, input, mover, clock, observedAt, evaluation, terminal).response
    {
      var applied := evaluation.applied;
      var fromReady := seen.game.status.Ready?;
      var startedVersion := if fromReady then seen.game.version + 1 else seen.game.version;
      var resultVersion := startedVersion + 1;
      var nextTurn := mover.Opposite();
      var clocks :=
        GameplayClock(clock.whiteMs, clock.blackMs, if terminal.None? then Some(nextTurn) else None, observedAt);
      var accepted := AcceptedMove(
        applied.check, input.clientMoveId, clocks, applied.fenAfter, resultVersion,
        applied.plyNumber, applied.san, nextTurn, applied.uci);
      var started := None;
      if fromReady {
        started := Some(StartedGame(
          GameplayClock(seen.game.whiteClockMs, seen.game.blackClockMs, Some(White), observedAt),
          startedVersion, seen.game.initialFen));
      }
      var ended := None;
      if terminal.Some? {
        ended := Some(EndedGame(
          clocks, applied.fenAfter, resultVersion, evaluation.pgn, terminal.value.result, terminal.value.termination));
      }
      var submission := MoveSubmission(accepted, false, ended, started, (seen.white.guest, seen.black.guest));

      var row := seen.game.(
        blackClockMs := clock.blackMs,
        currentFen := applied.fenAfter,
        pgn := evaluation.pgn,
        status := if terminal.Some? then terminal.value.status else if fromReady then InProgress else seen.game.status,
        turnColor := nextTurn,
        turnStartedAt := if terminal.None? then Some(observedAt) else None,
        version := seen.game.version + (if fromReady then 2 else 1),
        whiteClockMs := clock.whiteMs);
      if terminal.Some? {
        row := row.(
          endedAt := Some(observedAt), result := Some(terminal.value.result),
          termination := Some(terminal.value.termination));
      }
      if fromReady {
        row := row.(startedAt := Some(observedAt));
      }
      var count := UpdateGameAtVersion(game, seen.game.version, row);
      if count != 1 {
        assert false;
      }
      InsertMove(game, MoveRow(
        applied.plyNumber, input.clientMoveId, input.guest, mover, applied.san, applied.uci,
        applied.fenBefore, applied.fenAfter, observedAt));
      if terminal.Some? {
        DeleteAssignments(game);
      }
      InsertCommand(game, input.clientMoveId, MoveCommand(input.guest, submission, resultVersion));
      return Moved(submission);
    }

    lemma UnchangedGame(game: GameId)
      ensures game in games ==> games[game := games[game]] == games
    {
    }
  }

  /** The players an abandonment names, in slot order. */
  method AbsentPlayers(agg: Aggregate, absent: seq<GuestId>) returns (colors: seq<Color>, rows: seq<PlayerRow>)
    ensures colors == AbsentColors(agg, absent)
    ensures rows == [] <==> colors == []
    ensures (exists row :: row in rows && (row.disconnectedAt.None? || row.graceEndsAt.None?)) <==>
            NamesSomeoneHere(agg, absent)
    ensures forall now ::
              (exists row :: row in rows && GraceExpired(row, now)) <==> NamesSomeoneExpired(agg, absent, now)
  {
    colors, rows := [], [];
    if agg.white.guest in absent {
      colors, rows := colors + [White], rows + [agg.white];
    }
    if agg.black.guest in absent {
      colors, rows := colors + [Black], rows + [agg.black];
    }
  }

  /** Every ply is one more than its index. */
  method HasContiguousHistory(moves: seq<MoveRow>) returns (contiguous: bool)
    ensures contiguous <==> ContiguousHistory(moves)
  {
    var index := 0;
    while index < |moves|
      invariant 0 <= index <= |moves|
      invariant forall i :: 0 <= i < index ==> moves[i].ply == i + 1
    {
      if moves[index].ply != index + 1 {
        return false;
      }
      index := index + 1;
    }
    return true;
  }
}
