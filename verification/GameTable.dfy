/** The transactions against the transition table they never call: which committed steps
    are paths of the table, and exactly which are not. */
module GameTable {
  import opened Domain
  import opened ChessEngine
  import opened GameRows
  import opened GameInvariant
  import opened GameMoves

  function StateOf(game: GameRow): GameState { GameState(game.status, game.version) }

  /** The outcome a finished row carries. */
  function OutcomeOf(game: GameRow): Option<TerminalOutcome> {
    if game.result.None? || game.termination.None? then None
    else
      var winner :=
        if game.result.value.WhiteWin? then Some(White)
        else if game.result.value.BlackWin? then Some(Black)
        else None;
      Some(TerminalOutcome(game.result.value, game.status, game.termination.value, winner))
  }

  /** The transitions a request stands for, given what it committed. */
  function IntendedPath(agg: Aggregate, request: Request, after: Aggregate): seq<TransitionStep> {
    var outcome := OutcomeOf(after.game);
    if after.game == agg.game then []
    else
      match request
      case MarkReady(_, _, _) => [TransitionStep(MarkPlayersReady, None)]
      case StartIfReady => [TransitionStep(Start, None)]
      case Submit(_) =>
        var move := TransitionStep(if outcome.Some? then AcceptTerminalMove else AcceptMove, outcome);
        if agg.game.status.Ready? then [TransitionStep(Start, None), move] else [move]
      case ResignRequest(_) => [TransitionStep(Resign, outcome)]
      case TerminateForReset(_) => [TransitionStep(Abandon, outcome)]
      case MarkDisconnected(_, _) => [TransitionStep(PlayerDisconnected, None)]
      case MarkReconnected(_) => [TransitionStep(PlayerReconnected, None)]
      case AdjudicateTimeout => [TransitionStep(TimeoutFlag, outcome)]
      case AdjudicateNoShow => [TransitionStep(ExpireNoShow, outcome)]
      case AdjudicateAbandonment(_) => [TransitionStep(Abandon, outcome)]
  }

  /** The committed step is what the table gives for the intended transitions, version included. */
  predicate FollowsTable(agg: Aggregate, request: Request, after: Aggregate) {
    FollowPath(StateOf(agg.game), IntendedPath(agg, request, after)) == Ok(StateOf(after.game))
  }

  /** A session reset ended a game that had not started. */
  predicate ResetBeforeStart(agg: Aggregate, request: Request) {
    request.TerminateForReset? && (agg.game.status.WaitingForPlayers? || agg.game.status.Ready?)
  }

  /** A player came back while the other one is still away. */
  predicate BackWhileOtherAway(agg: Aggregate, request: Request) {
    && request.MarkReconnected?
    && agg.white.disconnectedAt.Some? && agg.black.disconnectedAt.Some?
  }

  lemma FollowOne(state: GameState, step: TransitionStep)
    ensures FollowPath(state, [step]) == TransitionGame(state, step.transition, step.outcome)
  {
    match TransitionGame(state, step.transition, step.outcome)
    case Err(_) =>
    case Ok(next) => assert [step][1..] == [];
  }

  lemma FollowTwo(state: GameState, first: TransitionStep, second: TransitionStep)
    ensures FollowPath(state, [first, second]) ==
            match TransitionGame(state, first.transition, first.outcome)
            case Err(e) => Err(e)
            case Ok(next) => TransitionGame(next, second.transition, second.outcome)
  {
    match TransitionGame(state, first.transition, first.outcome)
    case Err(_) =>
    case Ok(next) =>
      assert [first, second][1..] == [second];
      FollowOne(next, second);
  }

  /** Every committed step is a path of the table with the same total version delta and an
      outcome the table accepts, except exactly the two listed cases. */
  lemma StepsFollowTheTable(rules: Rules, agg: Aggregate, request: Request, us: nat)
    requires AggOk(rules, agg) && agg.game.version + 2 <= MAX_SAFE_INTEGER
    ensures var after := Apply(rules, agg, request, us);
            FollowsTable(agg, request, after) <==>
            after.game == agg.game || !(ResetBeforeStart(agg, request) || BackWhileOtherAway(agg, request))
  {
    var plan := PlanFor(rules, agg, request, us);
    EveryPlanHasItsShape(rules, agg, request, us);
    if EndsOffBoard(request) {
      EndingFollows(rules, agg, request, us);
    } else if request.Submit? {
      MoveFollows(rules, agg, request.input, us, plan);
    } else if request.MarkReconnected? {
      ReconnectFollows(agg, request.backGuest, us);
    } else {
      QuietFollows(rules, agg, request, us);
    }
  }

  lemma EndingFollows(rules: Rules, agg: Aggregate, request: Request, us: nat)
    requires RowOk(agg.game) && agg.game.version + 2 <= MAX_SAFE_INTEGER
    requires EndsOffBoard(request)
    ensures var after := Apply(rules, agg, request, us);
            FollowsTable(agg, request, after) <==> after.game == agg.game || !ResetBeforeStart(agg, request)
  {
    var plan := PlanFor(rules, agg, request, us);
    EndingShape(rules, agg, request, us);
    if plan != ReadOnly(plan.response) {
      EndingStatus(rules, agg, request, us);
      EndedRow(agg, request, us, plan);
      EndedRowFollows(agg, request, Execute(agg, plan));
    }
  }

  /** From which status each request can end a game. */
  predicate EndsFrom(request: Request, status: Status) {
    match request
    case AdjudicateNoShow => status.WaitingForPlayers?
    case AdjudicateAbandonment(_) => status.Reconnecting?
    case TerminateForReset(_) => status.Running() || status.Ready? || status.WaitingForPlayers?
    case _ => status.Running()
  }

  /** How each request ends a game. */
  predicate EndsAs(request: Request, status: Status, termination: Termination) {
    match request
    case AdjudicateNoShow => status.Expired? && termination.NoShow?
    case AdjudicateTimeout => status.Completed? && termination.Timeout?
    case ResignRequest(_) => status.Completed? && termination.Resignation?
    case _ => status.Abandoned? && (termination.Abandonment? || termination.DoubleAbandon?)
  }

  lemma EndingStatus(rules: Rules, agg: Aggregate, request: Request, us: nat)
    requires EndsOffBoard(request)
    requires var plan := PlanFor(rules, agg, request, us); plan != ReadOnly(plan.response)
    ensures EndsFrom(request, agg.game.status)
  {
  }

  /** The kind of outcome each off-board event derives. */
  predicate OutcomeFits(event: TerminalEvent, outcome: TerminalOutcome) {
    match event
    case NoShowEvent(_) => outcome.status.Expired? && outcome.termination.NoShow?
    case TimeoutEvent(_) => outcome.status.Completed? && outcome.termination.Timeout?
    case ResignationEvent(_) => outcome.status.Completed? && outcome.termination.Resignation?
    case AbandonmentEvent(_) =>
      outcome.status.Abandoned? && (outcome.termination.Abandonment? || outcome.termination.DoubleAbandon?)
    case _ => true
  }

  lemma EventEndsAs(event: TerminalEvent, outcome: TerminalOutcome)
    requires DeriveTerminalOutcome(event) == Ok(outcome)
    ensures OutcomeFits(event, outcome)
  {
  }

  lemma EndedRow(agg: Aggregate, request: Request, us: nat, plan: Plan)
    requires EndsOffBoard(request) && plan != ReadOnly(plan.response)
    requires EndingPlan(agg, us, plan, EndingEvent(agg, request, us), EndingCommand(request))
    ensures var after := Execute(agg, plan).game;
            && after.version == agg.game.version + 1
            && after.result.Some? && after.termination.Some?
            && EndsAs(request, after.status, after.termination.value)
  {
    var event := EndingEvent(agg, request, us);
    FinalizedRow(agg, plan, LockGameClock(agg.game, us).value, event, EndingCommand(request));
  }

  lemma FinalizedRow(
    agg: Aggregate, plan: Plan, locked: LockedClock, event: TerminalEvent, resignation: Option<(EventId, GuestId)>)
    requires DeriveTerminalOutcome(event).Ok?
    requires plan == PlanFinalize(agg, locked, DeriveTerminalOutcome(event).value, resignation)
    ensures var after := Execute(agg, plan).game;
            var outcome := DeriveTerminalOutcome(event).value;
            && after.version == agg.game.version + 1
            && after.result.Some? && after.termination == Some(outcome.termination) && after.status == outcome.status
            && OutcomeFits(event, outcome)
  {
    EventEndsAs(event, DeriveTerminalOutcome(event).value);
  }

  lemma EndedRowFollows(agg: Aggregate, request: Request, after: Aggregate)
    requires EndsOffBoard(request) && EndsFrom(request, agg.game.status)
    requires after.game.version == agg.game.version + 1 <= MAX_SAFE_INTEGER
    requires after.game.result.Some? && after.game.termination.Some?
    requires EndsAs(request, after.game.status, after.game.termination.value)
    ensures FollowsTable(agg, request, after) <==> !ResetBeforeStart(agg, request)
  {
    FollowOne(StateOf(agg.game), IntendedPath(agg, request, after)[0]);
  }

  lemma MoveFollows(rules: Rules, agg: Aggregate, input: SubmitMove, us: nat, plan: Plan)
    requires RowOk(agg.game) && agg.game.version + 2 <= MAX_SAFE_INTEGER
    requires SubmitPlan(rules, agg, input, us, plan)
    ensures FollowsTable(agg, Submit(input), Execute(agg, plan))
  {
    if AcceptsMove(rules, agg, input, us) {
      MovedRow(rules, agg, input, us);
      MovedRowFollows(agg, input, Execute(agg, plan));
    }
  }

  predicate PlayedOn(game: GameRow, after: GameRow) {
    && (game.status.InProgress? || game.status.Ready?)
    && after.version == game.version + (if game.status.Ready? then 2 else 1)
    && (if after.status.InProgress? then after.result.None?
        else
          && after.status.Completed? && after.result.Some? && after.termination.Some?
          && (after.termination.value.Checkmate? || after.termination.value.BoardDraw()))
  }

  lemma MovedRow(rules: Rules, agg: Aggregate, input: SubmitMove, us: nat)
    requires RowOk(agg.game) && AcceptsMove(rules, agg, input, us)
    ensures PlayedOn(agg.game, Execute(agg, AcceptedPlan(rules, agg, input, us)).game)
  {
    var over := EvaluationOf(rules, agg, input).value.gameOver;
    if over.Over? {
      DerivationIsCoherent(BoardEvent(over.reason, over.winner));
    }
  }

  lemma MovedRowFollows(agg: Aggregate, input: SubmitMove, after: Aggregate)
    requires PlayedOn(agg.game, after.game) && agg.game.version + 2 <= MAX_SAFE_INTEGER
    ensures FollowsTable(agg, Submit(input), after)
  {
    var path := IntendedPath(agg, Submit(input), after);
    if agg.game.status.Ready? {
      FollowTwo(StateOf(agg.game), path[0], path[1]);
    } else {
      FollowOne(StateOf(agg.game), path[0]);
    }
  }

  lemma ReconnectFollows(agg: Aggregate, guest: GuestId, us: nat)
    requires RowOk(agg.game) && PlayersOk(agg) && agg.game.version + 2 <= MAX_SAFE_INTEGER
    ensures var request := MarkReconnected(guest);
            var after := Execute(agg, PlanReconnected(agg, guest, us));
            FollowsTable(agg, request, after) <==> after.game == agg.game || !BackWhileOtherAway(agg, request)
  {
    FollowOne(StateOf(agg.game), TransitionStep(PlayerReconnected, None));
  }

  lemma QuietFollows(rules: Rules, agg: Aggregate, request: Request, us: nat)
    requires RowOk(agg.game) && PlayersOk(agg) && agg.game.version + 2 <= MAX_SAFE_INTEGER
    requires request.MarkReady? || request.StartIfReady? || request.MarkDisconnected?
    ensures FollowsTable(agg, request, Apply(rules, agg, request, us))
  {
    var after := Apply(rules, agg, request, us);
    if after.game != agg.game {
      QuietRow(rules, agg, request, us);
      FollowOne(StateOf(agg.game), IntendedPath(agg, request, after)[0]);
    }
  }

  lemma QuietRow(rules: Rules, agg: Aggregate, request: Request, us: nat)
    requires request.MarkReady? || request.StartIfReady? || request.MarkDisconnected?
    ensures var after := Apply(rules, agg, request, us).game;
            after != agg.game ==>
              && after.version == agg.game.version + 1
              && (match request
                  case MarkReady(_, _, _) => agg.game.status.WaitingForPlayers? && after.status.Ready?
                  case StartIfReady => agg.game.status.Ready? && after.status.InProgress?
                  case _ => agg.game.status.Running() && after.status.Reconnecting?)
  {
  }

  /** The two exceptions are real: no path of the table, whatever its labels, abandons a game
      that has not started in one version; and the only path that keeps RECONNECTING while
      advancing one version is a disconnect. */
  lemma ExceptionsAreReal(state: GameState, path: seq<TransitionStep>)
    requires FollowPath(state, path).Ok?
    ensures state.status.WaitingForPlayers? || state.status.Ready? ==>
              FollowPath(state, path).value != GameState(Abandoned, state.version + 1)
    ensures
      state.status.Reconnecting? && FollowPath(state, path).value == GameState(Reconnecting, state.version + 1) ==>
        |path| == 1 && path[0].transition.PlayerDisconnected?
  {
    PathsOnlyAdvance(state, path);
    if |path| == 1 {
      assert path == [path[0]];
      FollowOne(state, path[0]);
    }
  }
}
