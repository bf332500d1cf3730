/** Clock conservation over the move log, and the two ways out of READY. */
module GameTiming {
  import opened Domain
  import opened GameClock
  import opened ChessEngine
  import opened GameRows
  import opened GameInvariant
  import opened GameMoves
  import opened GameHistory

  /** Moves arrived in order, none before the game started. */
  predicate OrderedArrivals(startedAt: int, moves: seq<MoveRow>) {
    forall i :: 0 <= i < |moves| ==> TurnStart(startedAt, moves[..i]) <= moves[i].receivedAt
  }

  /** With ordered arrivals, the time both sides used is the time that passed. */
  lemma {:induction false} TimeIsUsedOnce(startedAt: int, moves: seq<MoveRow>)
    requires OrderedArrivals(startedAt, moves)
    ensures Spent(White, startedAt, moves) + Spent(Black, startedAt, moves) == TurnStart(startedAt, moves) - startedAt
  {
    if moves != [] {
      var front := moves[..|moves| - 1];
      assert forall i :: 0 <= i < |front| ==> front[..i] == moves[..i];
      TimeIsUsedOnce(startedAt, front);
    }
  }

  /** Conservation: clocks plus elapsed playing time equal what was granted, whatever
      disconnects and reconnects happened in between. */
  lemma ClocksAreConserved(rules: Rules, agg: Aggregate)
    requires AggOk(rules, agg) && agg.game.startedAt.Some?
    requires !agg.game.status.Terminal() || EndedOnBoard(agg.game)
    requires OrderedArrivals(agg.game.startedAt.value, agg.moves)
    ensures agg.game.whiteClockMs + agg.game.blackClockMs
            + (TurnStart(agg.game.startedAt.value, agg.moves) - agg.game.startedAt.value)
            == 2 * agg.game.timeInitialMs + |agg.moves| * agg.game.incrementMs
  {
    TimeIsUsedOnce(agg.game.startedAt.value, agg.moves);
    GrantsAddUp(|agg.moves|, agg.game.incrementMs);
  }

  /** Every move is granted its increment by one side or the other. */
  lemma GrantsAddUp(n: nat, incrementMs: int)
    ensures MovesBy(White, n) * incrementMs + MovesBy(Black, n) * incrementMs == n * incrementMs
  {
    assert MovesBy(White, n) + MovesBy(Black, n) == n;
    assert MovesBy(White, n) * incrementMs + MovesBy(Black, n) * incrementMs ==
           (MovesBy(White, n) + MovesBy(Black, n)) * incrementMs;
  }

  // ----- conservation over runs -----

  /** Transactions observe their instants in order, none before `since`. */
  predicate Chronological(steps: seq<Timed>, since: nat) {
    && (forall i :: 0 <= i < |steps| ==> since <= steps[i].us)
    && (forall i, j :: 0 <= i < j < |steps| ==> steps[i].us <= steps[j].us)
  }

  /** Nothing in the log is later than this instant, and all of it is in order. */
  predicate Punctual(agg: Aggregate, at: int) {
    match agg.game.startedAt
    case None => agg.moves == []
    case Some(startedAt) => OrderedArrivals(startedAt, agg.moves) && TurnStart(startedAt, agg.moves) <= at
  }

  /** A transaction that neither moves nor ends the game starts it now or leaves its start alone. */
  lemma QuietStartsNow(rules: Rules, agg: Aggregate, request: Request, us: nat)
    requires RowOk(agg.game) && PlayersOk(agg) && !request.Submit? && !EndsOffBoard(request)
    ensures var after := Apply(rules, agg, request, us);
            && after.moves == agg.moves
            && (after.game.startedAt == agg.game.startedAt
                || (agg.game.status.Ready? && after.game.startedAt == Some(Millis(us))))
  {
  }

  lemma ArrivalExtends(startedAt: int, moves: seq<MoveRow>, row: MoveRow)
    requires OrderedArrivals(startedAt, moves) && TurnStart(startedAt, moves) <= row.receivedAt
    ensures OrderedArrivals(startedAt, moves + [row])
  {
    var all := moves + [row];
    forall i | 0 <= i < |all|
      ensures TurnStart(startedAt, all[..i]) <= all[i].receivedAt
    {
      assert all[..i] == moves[..i];
    }
  }

  lemma SubmissionIsPunctual(rules: Rules, agg: Aggregate, input: SubmitMove, us: nat, at: int)
    requires AggOk(rules, agg) && Punctual(agg, at) && at <= Millis(us)
    ensures Punctual(Apply(rules, agg, Submit(input), us), Millis(us))
  {
    SubmitShape(rules, agg, input, us);
    if AcceptsMove(rules, agg, input, us) {
      var row := AcceptedPlan(rules, agg, input, us).move.value;
      ArrivalExtends(if agg.game.status.Ready? then row.receivedAt else agg.game.startedAt.value, agg.moves, row);
    }
  }

  /** Every transaction observed at a later instant keeps the log in order. */
  lemma StepIsPunctual(rules: Rules, agg: Aggregate, request: Request, us: nat, at: int)
    requires AggOk(rules, agg) && Punctual(agg, at) && at <= Millis(us)
    ensures Punctual(Apply(rules, agg, request, us), Millis(us))
  {
    if request.Submit? {
      SubmissionIsPunctual(rules, agg, request.input, us, at);
    } else if EndsOffBoard(request) {
      EndingShape(rules, agg, request, us);
    } else {
      QuietStartsNow(rules, agg, request, us);
    }
  }

  lemma {:induction false} RunIsPunctual(rules: Rules, agg: Aggregate, steps: seq<Timed>, since: nat)
    requires rules.Faithful() && AggOk(rules, agg) && Punctual(agg, Millis(since)) && Chronological(steps, since)
    ensures Punctual(RunGame(rules, agg, steps), Millis(if steps == [] then since else steps[|steps| - 1].us))
  {
    if steps != [] {
      var front, last := steps[..|steps| - 1], steps[|steps| - 1];
      RunIsPunctual(rules, agg, front, since);
      RunOfOneGame(rules, agg, front);
      var at := if front == [] then since else front[|front| - 1].us;
      StepIsPunctual(rules, RunGame(rules, agg, front), last.request, last.us, Millis(at));
    }
  }

  /** Conservation over runs: after any transactions in the order of their instants on a new
      game, clocks and playing time up to the turn add up to what was granted. */
  lemma RunsConserveTime(
    rules: Rules, id: GameId, matchId: MatchId, white: GuestId, black: GuestId,
    initialMs: int, incrementMs: int, joinDeadlineAt: int, steps: seq<Timed>)
    requires rules.Faithful() && white != black
    requires 0 < initialMs <= MAX_INT4 && 0 <= incrementMs <= MAX_INT4
    requires Chronological(steps, 0)
    ensures var created := FreshAggregate(rules, id, matchId, white, black, initialMs, incrementMs, joinDeadlineAt);
            var agg := RunGame(rules, created, steps);
            agg.game.startedAt.Some? && (!agg.game.status.Terminal() || EndedOnBoard(agg.game)) ==>
              agg.game.whiteClockMs + agg.game.blackClockMs
              + (TurnStart(agg.game.startedAt.value, agg.moves) - agg.game.startedAt.value)
              == 2 * initialMs + |agg.moves| * incrementMs
  {
    var created := FreshAggregate(rules, id, matchId, white, black, initialMs, incrementMs, joinDeadlineAt);
    FreshAggregateOk(rules, id, matchId, white, black, initialMs, incrementMs, joinDeadlineAt);
    RunIsPunctual(rules, created, steps, 0);
    RunOfOneGame(rules, created, steps);
    var agg := RunGame(rules, created, steps);
    if agg.game.startedAt.Some? && (!agg.game.status.Terminal() || EndedOnBoard(agg.game)) {
      ClocksAreConserved(rules, agg);
    }
  }

  /** Without any assumption on arrival times each side's clock is its own grant less its own
      use; so it is positive while the game lives and never above initial plus own increments. */
  lemma EachSideIsAccounted(rules: Rules, agg: Aggregate, side: Color)
    requires AggOk(rules, agg) && !agg.game.status.Terminal()
    ensures agg.game.ClockOf(side) ==
            agg.game.timeInitialMs + MovesBy(side, |agg.moves|) * agg.game.incrementMs
            - (if agg.game.startedAt.Some? then Spent(side, agg.game.startedAt.value, agg.moves) else 0)
    ensures 1 <= agg.game.ClockOf(side) <= agg.game.timeInitialMs + MovesBy(side, |agg.moves|) * agg.game.incrementMs
  {
  }

  /** The running clock of a game row. */
  function RunningClock(game: GameRow): Clock {
    Clock(game.whiteClockMs, game.blackClockMs, game.incrementMs, Some(game.turnColor), game.turnStartedAt)
  }

  /** An ending off the board freezes the idle side's clock and shows the running side's as
      the domain clock shows it, for every observation not before the turn began. */
  lemma EndedClocksAreTheViewedClocks(rules: Rules, agg: Aggregate, request: Request, us: nat)
    requires AggOk(rules, agg) && agg.game.status.Running() && EndsOffBoard(request)
    requires Apply(rules, agg, request, us).game.status.Terminal()
    requires Millis(us) >= agg.game.turnStartedAt.value
    ensures var after := Apply(rules, agg, request, us).game;
            ClockViewAt(RunningClock(agg.game), Millis(us)) ==
            Ok(ClockView(after.whiteClockMs, after.blackClockMs, Some(agg.game.turnColor), Millis(us)))
  {
    EndingShape(rules, agg, request, us);
    LockedShowsTheView(agg.game, us);
  }

  lemma LockedShowsTheView(game: GameRow, us: nat)
    requires game.status.Running() && game.turnStartedAt.Some? && LockGameClock(game, us).Some?
    requires 0 <= game.whiteClockMs <= MAX_INT4 && 0 <= game.blackClockMs <= MAX_INT4
    requires 0 <= game.incrementMs <= MAX_INT4
    requires Millis(us) >= game.turnStartedAt.value
    ensures var locked := LockGameClock(game, us).value;
            ClockViewAt(RunningClock(game), Millis(us)) ==
            Ok(ClockView(locked.whiteClockMs, locked.blackClockMs, Some(game.turnColor), Millis(us)))
  {
    SqlElapsedIsMillisecondElapsed(game.turnStartedAt.value, us);
  }

  // ----- START then a move, or a move straight out of READY -----

  /** The commands differ only in whether the acknowledgement also announces the start. */
  function WithoutStart(c: Command): Command {
    match c
    case MoveCommand(guest, moved, version) => MoveCommand(guest, moved.(started := None), version)
    case ResignCommand(_, _, _) => c
  }

  /** Same game, players, moves and commands, but for where the start was announced. */
  predicate SameButStart(a: Aggregate, b: Aggregate) {
    && a.game == b.game && a.moves == b.moves && a.white == b.white && a.black == b.black
    && a.commands.Keys == b.commands.Keys
    && forall e :: e in a.commands ==> WithoutStart(a.commands[e]) == WithoutStart(b.commands[e])
  }

  /** A first move out of READY commits the same game, players and move row as START followed
      by the same move at the same instant. */
  lemma FirstMoveIsStartThenMove(rules: Rules, agg: Aggregate, input: SubmitMove, us: nat)
    requires AggOk(rules, agg) && agg.game.status.Ready?
    ensures var started := Apply(rules, agg, StartIfReady, us);
            var next := input.(expectedVersion := input.expectedVersion + 1);
            && AcceptsMove(rules, agg, input, us) == AcceptsMove(rules, started, next, us)
            && (AcceptsMove(rules, agg, input, us) ==>
                  SameButStart(Apply(rules, agg, Submit(input), us), Apply(rules, started, Submit(next), us)))
  {
    var started := Apply(rules, agg, StartIfReady, us);
    var next := input.(expectedVersion := input.expectedVersion + 1);
    SubmitShape(rules, agg, input, us);
    SubmitShape(rules, started, next, us);
    StartedAdmitsTheSame(rules, agg, started, input, next, us);
    if AcceptsMove(rules, agg, input, us) {
      var e := EvaluationOf(rules, agg, input).value;
      MovePlansAgree(agg, started, input, next, AdmittedClock(agg, input, us), Millis(us), e, BoardOutcome(e.gameOver));
    }
  }

  lemma MovePlansAgree(
    agg: Aggregate, started: Aggregate, input: SubmitMove, next: SubmitMove, clock: Clock, at: int,
    e: Evaluation, terminal: Option<TerminalOutcome>)
    requires agg.game.status.Ready? && next == input.(expectedVersion := input.expectedVersion + 1)
    requires started == agg.(game := agg.game.(
                               startedAt := Some(at), status := InProgress, turnStartedAt := Some(at),
                               version := agg.game.version + 1))
    ensures SameButStart(
              Execute(agg, PlanAcceptedMove(agg, input, agg.game.turnColor, clock, at, e, terminal)),
              Execute(started, PlanAcceptedMove(started, next, agg.game.turnColor, clock, at, e, terminal)))
  {
  }

  lemma StartedAdmitsTheSame(
    rules: Rules, agg: Aggregate, started: Aggregate, input: SubmitMove, next: SubmitMove, us: nat)
    requires AggOk(rules, agg) && agg.game.status.Ready?
    requires started == Apply(rules, agg, StartIfReady, us)
    requires next == input.(expectedVersion := input.expectedVersion + 1)
    ensures Admitted(agg, input, us) == Admitted(started, next, us)
    ensures Admitted(agg, input, us) ==> AdmittedClock(agg, input, us) == AdmittedClock(started, next, us)
    ensures EvaluationOf(rules, agg, input) == EvaluationOf(rules, started, next)
  {
    SqlElapsedIsMillisecondElapsed(Millis(us), us);
  }
}
