/** The clocks a game is left with when it ends off the board: exactly what the unclamped
    projection of the locking statement makes of them. */
module EndedClocks {
  import opened Domain
  import opened GameClock
  import opened ChessEngine
  import opened GameRows
  import opened GameInvariant
  import opened GameMoves
  import opened GameHistory
  import opened GameTiming
  import opened GameDeadlines

  /** What a side is left with: its account, less for the side to move the time from the start
      of its turn to the end, however that difference comes out, and never below zero. */
  function FinalClock(game: GameRow, moves: seq<MoveRow>, side: Color): int
    requires game.endedAt.Some?
  {
    var account := ClockAfter(side, game.timeInitialMs, game.incrementMs, game.startedAt, moves);
    if game.startedAt.Some? && side == game.turnColor
    then Max(0, account - (game.endedAt.value - TurnStart(game.startedAt.value, moves)))
    else account
  }

  predicate EndedOffBoard(game: GameRow) { game.status.Terminal() && game.endedAt.Some? && !EndedOnBoard(game) }

  predicate FinalClocksOk(agg: Aggregate) {
    EndedOffBoard(agg.game) ==>
      && agg.game.whiteClockMs == FinalClock(agg.game, agg.moves, White)
      && agg.game.blackClockMs == FinalClock(agg.game, agg.moves, Black)
  }

  /** A game that ends off the board is left with its final clocks. */
  lemma EndingLeavesFinalClocks(
    agg: Aggregate, us: nat, outcome: TerminalOutcome, resignation: Option<(EventId, GuestId)>)
    requires RowOk(agg.game) && ClocksOk(agg.game, agg.moves) && !agg.game.status.Terminal()
    requires LockGameClock(agg.game, us).Some?
    ensures FinalClocksOk(Execute(agg, PlanFinalize(agg, LockGameClock(agg.game, us).value, outcome, resignation)))
  {
    if agg.game.status.Running() {
      SqlElapsedIsMillisecondElapsed(agg.game.turnStartedAt.value, us);
    }
  }

  lemma StepLeavesFinalClocks(rules: Rules, agg: Aggregate, request: Request, us: nat)
    requires AggOk(rules, agg) && FinalClocksOk(agg)
    ensures FinalClocksOk(Apply(rules, agg, request, us))
  {
    if agg.game.status.Terminal() {
      StepGrows(rules, agg, request, us);
    } else if request.Submit? {
      SubmissionEndsOnBoard(rules, agg, request.input, us);
    } else if EndsOffBoard(request) {
      EndingShape(rules, agg, request, us);
      var plan := PlanFor(rules, agg, request, us);
      if plan != ReadOnly(plan.response) {
        EndingLeavesFinalClocks(
          agg, us, DeriveTerminalOutcome(EndingEvent(agg, request, us)).value, EndingCommand(request));
      }
    } else {
      QuietEndsNothing(rules, agg, request, us);
    }
  }

  lemma SubmissionEndsOnBoard(rules: Rules, agg: Aggregate, input: SubmitMove, us: nat)
    requires AggOk(rules, agg) && !agg.game.status.Terminal()
    ensures !EndedOffBoard(Apply(rules, agg, Submit(input), us).game)
  {
    SubmitShape(rules, agg, input, us);
    if AcceptsMove(rules, agg, input, us) {
      var over := EvaluationOf(rules, agg, input).value.gameOver;
      if over.Over? {
        DerivationIsCoherent(BoardEvent(over.reason, over.winner));
      }
    }
  }

  lemma QuietEndsNothing(rules: Rules, agg: Aggregate, request: Request, us: nat)
    requires RowOk(agg.game) && PlayersOk(agg) && !agg.game.status.Terminal()
    requires !request.Submit? && !EndsOffBoard(request)
    ensures !Apply(rules, agg, request, us).game.status.Terminal()
  {
    EveryPlanHasItsShape(rules, agg, request, us);
  }

  lemma {:induction false} RunLeavesFinalClocks(rules: Rules, agg: Aggregate, steps: seq<Timed>)
    requires rules.Faithful() && AggOk(rules, agg) && FinalClocksOk(agg)
    ensures FinalClocksOk(RunGame(rules, agg, steps))
  {
    if steps != [] {
      var front, last := steps[..|steps| - 1], steps[|steps| - 1];
      RunLeavesFinalClocks(rules, agg, front);
      RunOfOneGame(rules, agg, front);
      StepLeavesFinalClocks(rules, RunGame(rules, agg, front), last.request, last.us);
    }
  }

  /** The ending came so long before the start of the turn that the running side gained more
      than all the time it had used. */
  predicate GainedTime(agg: Aggregate, side: Color) {
    && EndedOffBoard(agg.game) && agg.game.startedAt.Some? && side == agg.game.turnColor
    && agg.game.endedAt.value + Spent(side, agg.game.startedAt.value, agg.moves)
       < TurnStart(agg.game.startedAt.value, agg.moves)
  }

  /** In every reachable game, ended or not, a side's clock is within its own grant of initial
      time and increments exactly unless the game was ended off the board, on its turn, by a
      lock observed earlier than the turn began by more than all the time the side had used. */
  lemma WithinGrantExactly(
    rules: Rules, id: GameId, matchId: MatchId, white: GuestId, black: GuestId,
    initialMs: int, incrementMs: int, joinDeadlineAt: int, steps: seq<Timed>, side: Color)
    requires rules.Faithful() && white != black
    requires 0 < initialMs <= MAX_INT4 && 0 <= incrementMs <= MAX_INT4
    ensures var created := FreshAggregate(rules, id, matchId, white, black, initialMs, incrementMs, joinDeadlineAt);
            var agg := RunGame(rules, created, steps);
            && (EndedOffBoard(agg.game) ==> agg.game.ClockOf(side) == FinalClock(agg.game, agg.moves, side))
            && (agg.game.ClockOf(side) <= initialMs + MovesBy(side, |agg.moves|) * incrementMs <==>
                  !GainedTime(agg, side))
  {
    var created := FreshAggregate(rules, id, matchId, white, black, initialMs, incrementMs, joinDeadlineAt);
    FreshAggregateOk(rules, id, matchId, white, black, initialMs, incrementMs, joinDeadlineAt);
    RunOfOneGame(rules, created, steps);
    RunLeavesFinalClocks(rules, created, steps);
    GrantBoundsClock(rules, RunGame(rules, created, steps), side);
  }

  lemma GrantBoundsClock(rules: Rules, agg: Aggregate, side: Color)
    requires RowOk(agg.game) && ClocksOk(agg.game, agg.moves) && FinalClocksOk(agg)
    ensures EndedOffBoard(agg.game) ==> agg.game.ClockOf(side) == FinalClock(agg.game, agg.moves, side)
    ensures agg.game.ClockOf(side) <= agg.game.timeInitialMs + MovesBy(side, |agg.moves|) * agg.game.incrementMs <==>
            !GainedTime(agg, side)
  {
    GrantsArePositive(side, |agg.moves|, agg.game.incrementMs);
    var grant := agg.game.timeInitialMs + MovesBy(side, |agg.moves|) * agg.game.incrementMs;
    var account := ClockAfter(side, agg.game.timeInitialMs, agg.game.incrementMs, agg.game.startedAt, agg.moves);
    assert account == grant - if agg.game.startedAt.Some? then Spent(side, agg.game.startedAt.value, agg.moves) else 0;
    assert !EndedOffBoard(agg.game) ==> agg.game.ClockOf(side) == account;
  }

  lemma GrantsArePositive(side: Color, n: nat, incrementMs: int)
    requires 0 <= incrementMs
    ensures 0 <= MovesBy(side, n) * incrementMs
  {
  }

  // ----- in time order -----

  /** An ending is no earlier than the turn it ends. */
  predicate EndsOnItsTurn(agg: Aggregate) {
    EndedOffBoard(agg.game) && agg.game.startedAt.Some? ==>
      TurnStart(agg.game.startedAt.value, agg.moves) <= agg.game.endedAt.value
  }

  lemma EndingIsOnItsTurn(agg: Aggregate, us: nat, outcome: TerminalOutcome, resignation: Option<(EventId, GuestId)>)
    requires LockGameClock(agg.game, us).Some? && Punctual(agg, Millis(us))
    ensures EndsOnItsTurn(Execute(agg, PlanFinalize(agg, LockGameClock(agg.game, us).value, outcome, resignation)))
  {
  }

  lemma StepEndsOnItsTurn(rules: Rules, agg: Aggregate, request: Request, us: nat)
    requires AggOk(rules, agg) && EndsOnItsTurn(agg) && Punctual(agg, Millis(us))
    ensures EndsOnItsTurn(Apply(rules, agg, request, us))
  {
    if agg.game.status.Terminal() {
      StepGrows(rules, agg, request, us);
    } else if request.Submit? {
      SubmissionEndsOnBoard(rules, agg, request.input, us);
    } else if EndsOffBoard(request) {
      EndingShape(rules, agg, request, us);
      var plan := PlanFor(rules, agg, request, us);
      if plan != ReadOnly(plan.response) {
        EndingIsOnItsTurn(agg, us, DeriveTerminalOutcome(EndingEvent(agg, request, us)).value, EndingCommand(request));
      }
    } else {
      QuietEndsNothing(rules, agg, request, us);
    }
  }

  lemma {:induction false} RunEndsOnItsTurn(rules: Rules, agg: Aggregate, steps: seq<Timed>, since: nat)
    requires rules.Faithful() && AggOk(rules, agg) && EndsOnItsTurn(agg)
    requires Punctual(agg, Millis(since)) && Chronological(steps, since)
    ensures EndsOnItsTurn(RunGame(rules, agg, steps))
  {
    if steps != [] {
      var front, last := steps[..|steps| - 1], steps[|steps| - 1];
      RunEndsOnItsTurn(rules, agg, front, since);
      RunIsPunctual(rules, agg, front, since);
      RunOfOneGame(rules, agg, front);
      StepEndsOnItsTurn(rules, RunGame(rules, agg, front), last.request, last.us);
    }
  }

  /** So when instants never go back no side is ever above its grant, in any game, ended or not. */
  lemma InTimeOrderWithinGrant(
    rules: Rules, id: GameId, matchId: MatchId, white: GuestId, black: GuestId,
    initialMs: int, incrementMs: int, joinDeadlineAt: int, steps: seq<Timed>, side: Color)
    requires rules.Faithful() && white != black
    requires 0 < initialMs <= MAX_INT4 && 0 <= incrementMs <= MAX_INT4
    requires Chronological(steps, 0)
    ensures var created := FreshAggregate(rules, id, matchId, white, black, initialMs, incrementMs, joinDeadlineAt);
            var agg := RunGame(rules, created, steps);
            agg.game.ClockOf(side) <= initialMs + MovesBy(side, |agg.moves|) * incrementMs
  {
    var created := FreshAggregate(rules, id, matchId, white, black, initialMs, incrementMs, joinDeadlineAt);
    FreshAggregateOk(rules, id, matchId, white, black, initialMs, incrementMs, joinDeadlineAt);
    RunEndsOnItsTurn(rules, created, steps, 0);
    WithinGrantExactly(
      rules, id, matchId, white, black, initialMs, incrementMs, joinDeadlineAt, steps, side);
  }

  // ----- a reachable example -----

  const OPENING_US: nat := 5000
  const RESIGNED_US: nat := 4000

  /** A game started at instant 0, white's opening move 5 ms later, and white's resignation
      observed one millisecond before that move. */
  function ResignedTooEarly(rules: Rules, opening: SubmitMove, resignation: EventId): Aggregate {
    var moved := Apply(rules, StartedGameAtZero(rules), Submit(opening), OPENING_US);
    Apply(rules, moved, ResignRequest(ResignGame(resignation, moved.game.version, 1)), RESIGNED_US)
  }

  /** Black, whose turn began at 5 ms, is left with 300001 ms by an ending at 4 ms; the domain
      clock shows 300000 at that instant. */
  predicate LeftWithTooMuch(moved: Aggregate, ended: Aggregate) {
    && moved.game.status.InProgress? && moved.game.turnStartedAt == Some(5)
    && moved.game.timeInitialMs == moved.game.blackClockMs == 300000
    && ClockViewAt(RunningClock(moved.game), 4) == Ok(ClockView(301995, 300000, Some(Black), 4))
    && ended.game.status.Terminal() && ended.game.endedAt == Some(4) && |ended.moves| == 1
    && ended.game.blackClockMs == 300001
  }

  /** A lock observed before the turn began shows, and on an ending stores, more time than the
      side was ever granted, whatever the opening move, unless it ends the game: black is left
      with 300001 ms of 300000 without having moved. */
  lemma LockBeforeTheTurn(rules: Rules, opening: SubmitMove, resignation: EventId)
    requires rules.Faithful() && AcceptsMove(rules, StartedGameAtZero(rules), opening, OPENING_US)
    requires !Apply(rules, StartedGameAtZero(rules), Submit(opening), OPENING_US).game.status.Terminal()
    requires resignation != opening.clientMoveId
    ensures LeftWithTooMuch(
              Apply(rules, StartedGameAtZero(rules), Submit(opening), OPENING_US),
              ResignedTooEarly(rules, opening, resignation))
  {
    OpeningIsPlayed(rules, opening);
    var moved := Apply(rules, StartedGameAtZero(rules), Submit(opening), OPENING_US);
    EarlyResignation(moved, opening.clientMoveId, ResignGame(resignation, moved.game.version, 1));
    assert ResignedTooEarly(rules, opening, resignation) ==
           Execute(moved, PlanResign(moved, ResignGame(resignation, moved.game.version, 1), RESIGNED_US));
  }

  /** The game after the opening move. */
  predicate AfterOpening(agg: Aggregate, opening: EventId) {
    && agg.game.status.InProgress? && agg.game.startedAt == Some(0) && agg.game.turnStartedAt == Some(5)
    && agg.game.turnColor.Black? && agg.game.whiteClockMs == 301995 && agg.game.blackClockMs == 300000
    && agg.game.timeInitialMs == 300000 && agg.game.incrementMs == 2000
    && agg.white.guest == 1 && agg.black.guest == 2 && |agg.moves| == 1 && agg.commands.Keys == {opening}
  }

  lemma OpeningIsPlayed(rules: Rules, opening: SubmitMove)
    requires rules.Faithful() && AcceptsMove(rules, StartedGameAtZero(rules), opening, OPENING_US)
    requires !Apply(rules, StartedGameAtZero(rules), Submit(opening), OPENING_US).game.status.Terminal()
    ensures AfterOpening(Apply(rules, StartedGameAtZero(rules), Submit(opening), OPENING_US), opening.clientMoveId)
  {
    var agg := StartedGameAtZero(rules);
    StartedGameOk(rules);
    StartedGameRuns(rules);
    SubmitShape(rules, agg, opening, OPENING_US);
    AdmittedClockAccounts(agg.game, agg.moves, Millis(OPENING_US));
    var e := EvaluationOf(rules, agg, opening).value;
    OpeningPlan(agg, opening, AdmittedClock(agg, opening, OPENING_US), e, BoardOutcome(e.gameOver));
  }

  lemma OpeningPlan(agg: Aggregate, opening: SubmitMove, clock: Clock, e: Evaluation, terminal: Option<TerminalOutcome>)
    requires agg.game.status.InProgress? && agg.game.startedAt == Some(0)
    requires agg.game.timeInitialMs == 300000 && agg.game.incrementMs == 2000
    requires agg.white.guest == 1 && agg.black.guest == 2 && agg.moves == [] && agg.commands == map[]
    requires clock.whiteMs == 301995 && clock.blackMs == 300000
    ensures var after := Execute(agg, PlanAcceptedMove(agg, opening, White, clock, 5, e, terminal));
            terminal.None? ==> AfterOpening(after, opening.clientMoveId)
    ensures terminal.Some? && terminal.value.status == Completed ==>
              Execute(agg, PlanAcceptedMove(agg, opening, White, clock, 5, e, terminal)).game.status.Terminal()
  {
  }

  lemma EarlyResignation(agg: Aggregate, opening: EventId, input: ResignGame)
    requires AfterOpening(agg, opening) && opening != input.eventId
    requires input.guest == 1 && input.expectedVersion == agg.game.version
    ensures LeftWithTooMuch(agg, Execute(agg, PlanResign(agg, input, RESIGNED_US)))
  {
  }
}
