/** Move submission: exactly when a move is accepted, what it then writes, and that the
    invariant survives it; with that, every transaction keeps the invariant. */
module GameMoves {
  import opened Domain
  import opened GameClock
  import opened ChessEngine
  import opened GameRows
  import opened GameInvariant

  function BoardOutcome(over: GameOver): Option<TerminalOutcome> {
    match over
    case NotOver => None
    case Over(reason, winner) =>
      match DeriveTerminalOutcome(BoardEvent(reason, winner))
      case Err(_) => None
      case Ok(outcome) => Some(outcome)
  }

  /** The submission passes every check made before the chess engine is asked. */
  predicate Admitted(agg: Aggregate, input: SubmitMove, us: nat) {
    && LockGameClock(agg.game, us).Some?
    && agg.ColorOf(input.guest) == Some(agg.game.turnColor)
    && input.clientMoveId !in agg.commands
    && (agg.game.status.InProgress? || agg.game.status.Ready?)
    && input.expectedVersion == agg.game.version
    && ContiguousHistory(agg.moves)
    && MoveAdmission(agg.game, agg.game.turnColor, Millis(us)).Ok?
    && MoveAdmission(agg.game, agg.game.turnColor, Millis(us)).value.Accepted?
  }

  function EvaluationOf(rules: Rules, agg: Aggregate, input: SubmitMove): Result<Evaluation, ChessError> {
    Evaluate(rules, agg.game.currentFen, agg.Ucis(), agg.game.initialFen, input.move)
  }

  /** A move may end the game at this instant: it is not before the start. */
  predicate MayEndAt(game: GameRow, observedAt: int) { game.status.Ready? || !EndsBeforeStart(game, observedAt) }

  /** The engine's verdict and the new clock let the move be written. */
  predicate Playable(
    rules: Rules, agg: Aggregate, input: SubmitMove, mover: Color, clock: Clock, observedAt: int)
  {
    var evaluation := EvaluationOf(rules, agg, input);
    && evaluation.Ok? && evaluation.value.applied.color == mover
    && clock.whiteMs <= MAX_INT4 && clock.blackMs <= MAX_INT4
    && (evaluation.value.gameOver.Over? ==>
          BoardOutcome(evaluation.value.gameOver).Some? && MayEndAt(agg.game, observedAt))
  }

  predicate AcceptsMove(rules: Rules, agg: Aggregate, input: SubmitMove, us: nat) {
    && Admitted(agg, input, us)
    && Playable(rules, agg, input, agg.game.turnColor, AdmittedClock(agg, input, us), Millis(us))
  }

  function AdmittedClock(agg: Aggregate, input: SubmitMove, us: nat): Clock
    requires Admitted(agg, input, us)
  {
    MoveAdmission(agg.game, agg.game.turnColor, Millis(us)).value.clock
  }

  function AcceptedPlan(rules: Rules, agg: Aggregate, input: SubmitMove, us: nat): Plan
    requires AcceptsMove(rules, agg, input, us)
  {
    var evaluation := EvaluationOf(rules, agg, input).value;
    PlanAcceptedMove(
      agg, input, agg.game.turnColor, AdmittedClock(agg, input, us), Millis(us), evaluation,
      BoardOutcome(evaluation.gameOver))
  }

  predicate NotANewMove(plan: Plan) {
    plan == ReadOnly(plan.response) && (plan.response.Moved? ==> plan.response.moved.duplicate)
  }

  lemma AdmissionShape(rules: Rules, agg: Aggregate, input: SubmitMove, us: nat)
    ensures var plan := PlanSubmit(rules, agg, input, us);
            if Admitted(agg, input, us)
            then plan == PlanEvaluatedMove(
                           rules, agg, input, agg.game.turnColor, AdmittedClock(agg, input, us), Millis(us))
            else NotANewMove(plan)
  {
  }

  lemma EvaluationShape(rules: Rules, agg: Aggregate, input: SubmitMove, mover: Color, clock: Clock, observedAt: int)
    ensures var plan := PlanEvaluatedMove(rules, agg, input, mover, clock, observedAt);
            if Playable(rules, agg, input, mover, clock, observedAt)
            then
              var evaluation := EvaluationOf(rules, agg, input).value;
              plan == PlanAcceptedMove(
                        agg, input, mover, clock, observedAt, evaluation, BoardOutcome(evaluation.gameOver))
            else NotANewMove(plan)
  {
  }

  /** A submission either writes the accepted plan or writes nothing. */
  lemma SubmitShape(rules: Rules, agg: Aggregate, input: SubmitMove, us: nat)
    ensures var plan := PlanSubmit(rules, agg, input, us);
            if AcceptsMove(rules, agg, input, us)
            then plan == AcceptedPlan(rules, agg, input, us)
            else NotANewMove(plan)
  {
    AdmissionShape(rules, agg, input, us);
    if Admitted(agg, input, us) {
      EvaluationShape(rules, agg, input, agg.game.turnColor, AdmittedClock(agg, input, us), Millis(us));
    }
  }

  // ----- what an accepted move does to the clocks -----

  lemma ClockStep(color: Color, initialMs: int, incrementMs: int, startedAt: int, moves: seq<MoveRow>, row: MoveRow)
    ensures ClockAfter(color, initialMs, incrementMs, Some(startedAt), moves + [row]) ==
            ClockAfter(color, initialMs, incrementMs, Some(startedAt), moves)
            + if ColorAt(|moves|) == color
              then incrementMs - Elapsed(TurnStart(startedAt, moves), row.receivedAt)
              else 0
  {
    assert (moves + [row])[..|moves|] == moves;
    var more := MovesBy(color, |moves| + 1) - MovesBy(color, |moves|);
    assert more == if ColorAt(|moves|) == color then 1 else 0;
    assert (MovesBy(color, |moves|) + more) * incrementMs == MovesBy(color, |moves|) * incrementMs + more * incrementMs;
  }

  /** When the mover's turn began: at the move itself for the first move out of READY. */
  function MoverTurnStart(game: GameRow, observedAt: int): int {
    if game.status.Ready? || game.turnStartedAt.None? then observedAt else game.turnStartedAt.value
  }

  /** The admitted clock charges the mover and nobody else. */
  lemma AdmittedClockAccounts(game: GameRow, moves: seq<MoveRow>, observedAt: int)
    requires RowOk(game) && ClocksOk(game, moves) && (game.status.InProgress? || game.status.Ready?)
    requires game.turnColor == ColorAt(|moves|)
    ensures var admission := MoveAdmission(game, game.turnColor, observedAt);
            && admission.Ok?
            && var used := Elapsed(MoverTurnStart(game, observedAt), observedAt);
            && (admission.value.Accepted? <==> used < game.ClockOf(game.turnColor))
            && (admission.value.Accepted? ==>
                  var clock := admission.value.clock;
                  && RemainingFor(clock, game.turnColor) == game.ClockOf(game.turnColor) - used + game.incrementMs
                  && RemainingFor(clock, game.turnColor.Opposite()) == game.ClockOf(game.turnColor.Opposite()))
  {
  }

  lemma AcceptedKeepsClocks(game: GameRow, moves: seq<MoveRow>, after: GameRow, row: MoveRow)
    requires RowOk(game) && ClocksOk(game, moves) && (game.status.InProgress? || game.status.Ready?)
    requires game.turnColor == ColorAt(|moves|)
    requires var used := Elapsed(MoverTurnStart(game, row.receivedAt), row.receivedAt);
             && used < game.ClockOf(game.turnColor)
             && after.ClockOf(game.turnColor) == game.ClockOf(game.turnColor) - used + game.incrementMs
             && after.ClockOf(game.turnColor.Opposite()) == game.ClockOf(game.turnColor.Opposite())
    requires after.whiteClockMs <= MAX_INT4 && after.blackClockMs <= MAX_INT4
    requires after.timeInitialMs == game.timeInitialMs && after.incrementMs == game.incrementMs
    requires after.startedAt == if game.status.Ready? then Some(row.receivedAt) else game.startedAt
    requires after.status.InProgress? || after.status.Terminal()
    requires after.status.InProgress? ==> after.turnStartedAt == Some(row.receivedAt)
    ensures ClocksOk(after, moves + [row])
  {
    var startedAt := after.startedAt.value;
    ClockStep(White, game.timeInitialMs, game.incrementMs, startedAt, moves, row);
    ClockStep(Black, game.timeInitialMs, game.incrementMs, startedAt, moves, row);
    assert MoverTurnStart(game, row.receivedAt) == TurnStart(startedAt, moves);
    assert ClocksAccounted(game, moves);
    assert ClockAfter(White, game.timeInitialMs, game.incrementMs, Some(startedAt), moves) == game.whiteClockMs;
    assert ClockAfter(Black, game.timeInitialMs, game.incrementMs, Some(startedAt), moves) == game.blackClockMs;
  }

  // ----- what an accepted move does to log, rows and commands -----

  /** What the engine's verdict means for the log: the new move replays to the new position,
      and the game ends exactly when that position is final. */
  ghost predicate VerdictOk(
    rules: Rules, agg: Aggregate, mover: Color, e: Evaluation, terminal: Option<TerminalOutcome>)
  {
    var before := Replay(rules, agg.game.initialFen, agg.Ucis());
    var after := Replay(rules, agg.game.initialFen, agg.Ucis() + [e.applied.uci]);
    && before.Ok? && after.Ok?
    && e.applied.fenBefore == rules.fen(before.value)
    && e.applied.fenAfter == rules.fen(after.value) && e.applied.fenAfter != ""
    && IsUci(e.applied.uci) && e.applied.san != ""
    && e.applied.plyNumber == |agg.moves| + 1
    && rules.turn(before.value) == mover && rules.turn(after.value) == mover.Opposite()
    && terminal.Some? == GameOverAt(rules, after.value).Over?
    && (terminal.Some? ==>
          && terminal.value.status == Completed
          && terminal.value.termination == GameOverAt(rules, after.value).reason
          && (terminal.value.termination.Checkmate? || terminal.value.termination.BoardDraw())
          && CoherentOutcome(Completed, terminal.value.termination, terminal.value.result))
  }

  lemma VerdictHolds(rules: Rules, agg: Aggregate, input: SubmitMove, mover: Color, clock: Clock, observedAt: int)
    requires rules.Faithful() && Playable(rules, agg, input, mover, clock, observedAt)
    ensures var e := EvaluationOf(rules, agg, input).value;
            && VerdictOk(rules, agg, mover, e, BoardOutcome(e.gameOver))
            && (BoardOutcome(e.gameOver).Some? ==> MayEndAt(agg.game, observedAt))
  {
    var e := EvaluationOf(rules, agg, input).value;
    AcceptedMoveReplays(rules, agg.game.currentFen, agg.Ucis(), agg.game.initialFen, input.move);
    var after := Replay(rules, agg.game.initialFen, agg.Ucis() + [e.applied.uci]).value;
    if e.gameOver.Over? {
      GameOverDerives(rules, after);
      DerivationIsCoherent(BoardEvent(e.gameOver.reason, e.gameOver.winner));
    }
  }

  lemma AcceptedKeepsLog(
    rules: Rules, game: GameRow, guests: (GuestId, GuestId), moves: seq<MoveRow>, row: MoveRow, after: GameRow)
    requires LogOk(rules, game.initialFen, guests, moves)
    requires row.ply == |moves| + 1 && row.color == ColorAt(|moves|) && IsUci(row.uci)
    requires row.guest == (if row.color.White? then guests.0 else guests.1)
    requires var before := Replay(rules, game.initialFen, UciList(moves));
             var reached := Replay(rules, game.initialFen, UciList(moves) + [row.uci]);
             && before.Ok? && reached.Ok?
             && row.fenBefore == rules.fen(before.value) && row.fenAfter == rules.fen(reached.value)
             && rules.turn(before.value) == row.color && rules.turn(reached.value) == row.color.Opposite()
             && PositionFits(rules, after, |moves| + 1, reached.value)
    requires after.initialFen == game.initialFen
    ensures LogOk(rules, after.initialFen, guests, moves + [row])
    ensures PositionOk(rules, after, moves + [row])
  {
    assert ColorAt(|moves| + 1) == row.color.Opposite();
    LogExtends(rules, game.initialFen, guests, moves, row);
  }

  lemma AcceptedMoveFits(
    rules: Rules, agg: Aggregate, input: SubmitMove, mover: Color, clock: Clock, observedAt: int,
    e: Evaluation, terminal: Option<TerminalOutcome>)
    requires VerdictOk(rules, agg, mover, e, terminal)
    requires agg.game.termination.None? && mover == ColorAt(|agg.moves|)
    ensures var plan := PlanAcceptedMove(agg, input, mover, clock, observedAt, e, terminal);
            PositionFits(
              rules, plan.game.value, |agg.moves| + 1,
              Replay(rules, agg.game.initialFen, agg.Ucis() + [e.applied.uci]).value)
  {
  }

  lemma AcceptedKeepsRows(
    agg: Aggregate, input: SubmitMove, mover: Color, clock: Clock, observedAt: int,
    e: Evaluation, terminal: Option<TerminalOutcome>)
    requires RowOk(agg.game) && PlayersOk(agg) && (agg.game.status.InProgress? || agg.game.status.Ready?)
    requires e.applied.fenAfter != ""
    requires terminal.Some? ==>
               && MayEndAt(agg.game, observedAt)
               && terminal.value.status == Completed
               && CoherentOutcome(Completed, terminal.value.termination, terminal.value.result)
    ensures var after := Execute(agg, PlanAcceptedMove(agg, input, mover, clock, observedAt, e, terminal));
            RowOk(after.game) && PlayersOk(after)
  {
  }

  lemma AcceptedKeepsCommands(
    agg: Aggregate, input: SubmitMove, mover: Color, clock: Clock, observedAt: int,
    e: Evaluation, terminal: Option<TerminalOutcome>)
    requires CommandsOk(agg) && RowOk(agg.game) && !agg.game.status.Terminal()
    requires input.clientMoveId !in agg.commands && agg.ColorOf(input.guest) == Some(mover)
    requires clock.whiteMs >= 0 && clock.blackMs >= 0 && observedAt >= 0
    requires agg.game.whiteClockMs >= 0 && agg.game.blackClockMs >= 0
    requires e.applied.plyNumber == |agg.moves| + 1 && IsUci(e.applied.uci)
    requires e.applied.fenAfter != "" && e.applied.san != ""
    requires terminal.Some? ==>
               && terminal.value.status == Completed
               && (terminal.value.termination.Checkmate? || terminal.value.termination.BoardDraw())
    ensures CommandsOk(Execute(agg, PlanAcceptedMove(agg, input, mover, clock, observedAt, e, terminal)))
  {
    var plan := PlanAcceptedMove(agg, input, mover, clock, observedAt, e, terminal);
    var after := Execute(agg, plan);
    forall id | id in after.commands
      ensures CommandOk(after, id, after.commands[id])
    {
      if id in agg.commands {
        assert CommandOk(agg, id, agg.commands[id]);
        OlderCommandKept(agg, after, id);
      } else {
        assert MoveAcknowledged(plan.move.value, id, input.guest, plan.command.value.1.moved.accepted);
      }
    }
    forall i | 0 <= i < |after.moves|
      ensures MoveRecorded(after, i)
    {
      if i < |agg.moves| {
        assert MoveRecorded(agg, i);
      }
    }
  }

  lemma OlderCommandKept(agg: Aggregate, after: Aggregate, id: EventId)
    requires id in agg.commands && CommandOk(agg, id, agg.commands[id])
    requires RowOk(agg.game) && !agg.game.status.Terminal()
    requires |after.moves| > |agg.moves| && after.moves[..|agg.moves|] == agg.moves
    requires after.white.guest == agg.white.guest && after.black.guest == agg.black.guest
    requires after.game.version >= agg.game.version
    ensures CommandOk(after, id, agg.commands[id])
  {
    var c := agg.commands[id];
    if c.MoveCommand? {
      var ply := c.moved.accepted.ply;
      assert after.moves[ply - 1] == after.moves[..|agg.moves|][ply - 1];
    }
  }

  lemma AcceptedKeeps(rules: Rules, agg: Aggregate, input: SubmitMove, us: nat)
    requires rules.Faithful() && AggOk(rules, agg) && AcceptsMove(rules, agg, input, us)
    ensures AggOk(rules, Execute(agg, AcceptedPlan(rules, agg, input, us)))
  {
    var mover, clock := agg.game.turnColor, AdmittedClock(agg, input, us);
    var e := EvaluationOf(rules, agg, input).value;
    var terminal := BoardOutcome(e.gameOver);
    var plan := PlanAcceptedMove(agg, input, mover, clock, Millis(us), e, terminal);
    AdmittedClockAccounts(agg.game, agg.moves, Millis(us));
    VerdictHolds(rules, agg, input, mover, clock, Millis(us));
    AcceptedKeepsParts(rules, agg, input, mover, clock, Millis(us), e, terminal);
  }

  lemma AcceptedKeepsParts(
    rules: Rules, agg: Aggregate, input: SubmitMove, mover: Color, clock: Clock, observedAt: nat,
    e: Evaluation, terminal: Option<TerminalOutcome>)
    requires AggOk(rules, agg) && (agg.game.status.InProgress? || agg.game.status.Ready?)
    requires mover == agg.game.turnColor && agg.ColorOf(input.guest) == Some(mover)
    requires input.clientMoveId !in agg.commands
    requires VerdictOk(rules, agg, mover, e, terminal) && (terminal.Some? ==> MayEndAt(agg.game, observedAt))
    requires clock.whiteMs <= MAX_INT4 && clock.blackMs <= MAX_INT4
    requires ClockMoves(agg.game, mover, clock, observedAt)
    ensures AggOk(rules, Execute(agg, PlanAcceptedMove(agg, input, mover, clock, observedAt, e, terminal)))
  {
    AcceptedKeepsRows(agg, input, mover, clock, observedAt, e, terminal);
    AcceptedKeepsPlay(rules, agg, input, mover, clock, observedAt, e, terminal);
    AcceptedKeepsCommands(agg, input, mover, clock, observedAt, e, terminal);
  }

  /** The clock after a move: the mover's time less what was used plus the increment, the other's untouched. */
  predicate ClockMoves(game: GameRow, mover: Color, clock: Clock, observedAt: int) {
    var used := Elapsed(MoverTurnStart(game, observedAt), observedAt);
    && used < game.ClockOf(mover)
    && RemainingFor(clock, mover) == game.ClockOf(mover) - used + game.incrementMs
    && RemainingFor(clock, mover.Opposite()) == game.ClockOf(mover.Opposite())
  }

  lemma AcceptedKeepsPlay(
    rules: Rules, agg: Aggregate, input: SubmitMove, mover: Color, clock: Clock, observedAt: nat,
    e: Evaluation, terminal: Option<TerminalOutcome>)
    requires RowOk(agg.game) && ClocksOk(agg.game, agg.moves) && PositionOk(rules, agg.game, agg.moves)
    requires LogOk(rules, agg.game.initialFen, (agg.white.guest, agg.black.guest), agg.moves)
    requires agg.game.status.InProgress? || agg.game.status.Ready?
    requires mover == agg.game.turnColor && agg.ColorOf(input.guest) == Some(mover)
    requires agg.white.guest != agg.black.guest
    requires VerdictOk(rules, agg, mover, e, terminal)
    requires clock.whiteMs <= MAX_INT4 && clock.blackMs <= MAX_INT4
    requires ClockMoves(agg.game, mover, clock, observedAt)
    ensures var after := Execute(agg, PlanAcceptedMove(agg, input, mover, clock, observedAt, e, terminal));
            && ClocksOk(after.game, after.moves) && PositionOk(rules, after.game, after.moves)
            && LogOk(rules, after.game.initialFen, (after.white.guest, after.black.guest), after.moves)
  {
    var plan := PlanAcceptedMove(agg, input, mover, clock, observedAt, e, terminal);
    AcceptedKeepsClocks(agg.game, agg.moves, plan.game.value, plan.move.value);
    AcceptedMoveFits(rules, agg, input, mover, clock, observedAt, e, terminal);
    AcceptedKeepsLog(
      rules, agg.game, (agg.white.guest, agg.black.guest), agg.moves, plan.move.value, plan.game.value);
  }

  // ----- every transaction -----

  /** The three kinds of plan: an ending off the board, a submission, or a quiet step. */
  predicate PlanShape(rules: Rules, agg: Aggregate, request: Request, us: nat, plan: Plan) {
    if EndsOffBoard(request) then
      EndingPlan(agg, us, plan, EndingEvent(agg, request, us), EndingCommand(request))
    else if request.Submit? then SubmitPlan(rules, agg, request.input, us, plan)
    else plan == ReadOnly(plan.response) || QuietPlan(agg, plan)
  }

  predicate SubmitPlan(rules: Rules, agg: Aggregate, input: SubmitMove, us: nat, plan: Plan) {
    if AcceptsMove(rules, agg, input, us) then plan == AcceptedPlan(rules, agg, input, us) else NotANewMove(plan)
  }

  lemma EveryPlanHasItsShape(rules: Rules, agg: Aggregate, request: Request, us: nat)
    requires RowOk(agg.game) && PlayersOk(agg)
    ensures PlanShape(rules, agg, request, us, PlanFor(rules, agg, request, us))
  {
    match request
    case Submit(input) => SubmitShape(rules, agg, input, us);
    case MarkReady(guest, expectedVersion, observedAt) => MarkReadyIsQuiet(agg, guest, expectedVersion, observedAt);
    case StartIfReady => StartIsQuiet(agg, us);
    case MarkDisconnected(guest, graceMs) => DisconnectedIsQuiet(agg, guest, graceMs, us);
    case MarkReconnected(guest) => ReconnectedIsQuiet(agg, guest, us);
    case _ => EndingShape(rules, agg, request, us);
  }

  lemma PlanKeeps(rules: Rules, agg: Aggregate, request: Request, us: nat, plan: Plan)
    requires rules.Faithful() && AggOk(rules, agg)
    requires PlanShape(rules, agg, request, us, plan)
    ensures AggOk(rules, Execute(agg, plan))
  {
    if plan == ReadOnly(plan.response) {
      assert Execute(agg, plan) == agg;
    } else if EndsOffBoard(request) {
      EndingPlanKeeps(rules, agg, us, plan, EndingEvent(agg, request, us), EndingCommand(request));
    } else if request.Submit? {
      AcceptedKeeps(rules, agg, request.input, us);
    } else {
      QuietStepKeeps(rules, agg, Execute(agg, plan));
    }
  }

  /** Every transaction, whatever it is asked and whenever, keeps the invariant. */
  lemma ApplyKeeps(rules: Rules, agg: Aggregate, request: Request, us: nat)
    requires rules.Faithful() && AggOk(rules, agg)
    ensures AggOk(rules, Apply(rules, agg, request, us))
  {
    EveryPlanHasItsShape(rules, agg, request, us);
    PlanKeeps(rules, agg, request, us, PlanFor(rules, agg, request, us));
  }
}
