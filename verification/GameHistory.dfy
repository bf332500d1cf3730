/** How one game evolves: what no transaction ever changes, when a game ends and how often
    that is announced, and when a submission is accepted, refused as late, or found corrupt. */
module GameHistory {
  import opened Domain
  import opened GameClock
  import opened ChessEngine
  import opened GameRows
  import opened GameInvariant
  import opened GameMoves

  // ----- growth -----

  predicate SameIdentity(a: Aggregate, b: Aggregate) {
    && b.white.guest == a.white.guest && b.black.guest == a.black.guest
    && b.game.id == a.game.id && b.game.matchId == a.game.matchId
    && b.game.initialFen == a.game.initialFen
    && b.game.timeInitialMs == a.game.timeInitialMs && b.game.incrementMs == a.game.incrementMs
  }

  predicate CommandsKept(a: map<EventId, Command>, b: map<EventId, Command>) {
    forall e :: e in a ==> e in b && b[e] == a[e]
  }

  /** b is a later state of a: the log and the commands only grow, the version moves exactly
      when the game row does, and a finished game is the same row for row. */
  predicate Grows(a: Aggregate, b: Aggregate) {
    && SameIdentity(a, b)
    && a.moves <= b.moves
    && CommandsKept(a.commands, b.commands)
    && a.game.version <= b.game.version
    && (a.game.version == b.game.version ==> b.game == a.game && b.moves == a.moves && b.commands == a.commands)
    && (a.game.status.Terminal() ==> b == a)
  }

  lemma GrowsIsTransitive(a: Aggregate, b: Aggregate, c: Aggregate)
    requires Grows(a, b) && Grows(b, c)
    ensures Grows(a, c)
  {
  }

  /** The ending a response announces for the first time, if it does. */
  function NewEnding(r: Response): Option<EndedGame> {
    match r
    case Ended(s) => if s.duplicate then None else Some(s.ended)
    case Moved(s) => if s.duplicate then None else s.ended
    case _ => None
  }

  /** The effect of a plan: the game grows; it ends exactly when a new ending is announced,
      the announcement repeats the final row, and the assignments go exactly then. */
  predicate StepOk(agg: Aggregate, plan: Plan) {
    var after := Execute(agg, plan);
    && Grows(agg, after)
    && plan.dropAssignments == (!agg.game.status.Terminal() && after.game.status.Terminal())
    && NewEnding(plan.response).Some? == plan.dropAssignments
    && (plan.dropAssignments ==> StoredEnding(after.game, NewEnding(plan.response).value))
  }

  lemma StepGrows(rules: Rules, agg: Aggregate, request: Request, us: nat)
    requires RowOk(agg.game) && PlayersOk(agg)
    ensures StepOk(agg, PlanFor(rules, agg, request, us))
  {
    EveryPlanHasItsShape(rules, agg, request, us);
    if PlanFor(rules, agg, request, us).response.Moved? || PlanFor(rules, agg, request, us).response.Ended? {
      ReadOnlyAnnouncesNothing(rules, agg, request, us);
    }
    ShapedPlanGrows(rules, agg, request, us, PlanFor(rules, agg, request, us));
  }

  lemma ShapedPlanGrows(rules: Rules, agg: Aggregate, request: Request, us: nat, plan: Plan)
    requires RowOk(agg.game) && PlayersOk(agg)
    requires PlanShape(rules, agg, request, us, plan)
    requires plan == ReadOnly(plan.response) ==> NewEnding(plan.response).None?
    ensures StepOk(agg, plan)
  {
    if plan == ReadOnly(plan.response) {
    } else if EndsOffBoard(request) {
      OffBoardOutcome(EndingEvent(agg, request, us), DeriveTerminalOutcome(EndingEvent(agg, request, us)).value);
    } else if request.Submit? {
      AcceptedGrows(rules, agg, request.input, us);
    }
  }

  lemma ReadOnlyAnnouncesNothing(rules: Rules, agg: Aggregate, request: Request, us: nat)
    ensures var plan := PlanFor(rules, agg, request, us);
            plan == ReadOnly(plan.response) ==> NewEnding(plan.response).None?
  {
    if request.Submit? {
      SubmitShape(rules, agg, request.input, us);
    } else if EndsOffBoard(request) {
      EndingReplaysAreDuplicates(rules, agg, request, us);
    }
  }

  lemma EndingReplaysAreDuplicates(rules: Rules, agg: Aggregate, request: Request, us: nat)
    requires EndsOffBoard(request)
    ensures var plan := PlanFor(rules, agg, request, us);
            plan == ReadOnly(plan.response) ==> NewEnding(plan.response).None?
  {
  }

  lemma AcceptedGrows(rules: Rules, agg: Aggregate, input: SubmitMove, us: nat)
    requires RowOk(agg.game) && AcceptsMove(rules, agg, input, us)
    ensures StepOk(agg, AcceptedPlan(rules, agg, input, us))
  {
    var e := EvaluationOf(rules, agg, input).value;
    if e.gameOver.Over? {
      DerivationIsCoherent(BoardEvent(e.gameOver.reason, e.gameOver.winner));
    }
    MovePlanGrows(
      agg, input, agg.game.turnColor, AdmittedClock(agg, input, us), Millis(us), e, BoardOutcome(e.gameOver));
  }

  lemma MovePlanGrows(
    agg: Aggregate, input: SubmitMove, mover: Color, clock: Clock, observedAt: int,
    e: Evaluation, terminal: Option<TerminalOutcome>)
    requires RowOk(agg.game) && (agg.game.status.InProgress? || agg.game.status.Ready?)
    requires input.clientMoveId !in agg.commands
    requires terminal.Some? ==> terminal.value.status.Terminal()
    ensures StepOk(agg, PlanAcceptedMove(agg, input, mover, clock, observedAt, e, terminal))
  {
  }

  // ----- runs of one game -----

  datatype Timed = Timed(request: Request, us: nat)

  function RunGame(rules: Rules, agg: Aggregate, steps: seq<Timed>): Aggregate {
    if steps == [] then agg
    else
      var before := RunGame(rules, agg, steps[..|steps| - 1]);
      Apply(rules, before, steps[|steps| - 1].request, steps[|steps| - 1].us)
  }

  /** How many first-time endings a run announces. */
  function EndingsAnnounced(rules: Rules, agg: Aggregate, steps: seq<Timed>): nat {
    if steps == [] then 0
    else
      var front := steps[..|steps| - 1];
      var last := steps[|steps| - 1];
      EndingsAnnounced(rules, agg, front)
      + if NewEnding(Answer(rules, RunGame(rules, agg, front), last.request, last.us)).Some? then 1 else 0
  }

  /** Over any run: the invariant holds at the end, the game only grew, and its ending was
      announced exactly once if it ended in the run and never otherwise. */
  lemma {:induction false} RunOfOneGame(rules: Rules, agg: Aggregate, steps: seq<Timed>)
    requires rules.Faithful() && AggOk(rules, agg)
    ensures var after := RunGame(rules, agg, steps);
            && AggOk(rules, after)
            && Grows(agg, after)
            && EndingsAnnounced(rules, agg, steps) ==
               (if !agg.game.status.Terminal() && after.game.status.Terminal() then 1 else 0)
  {
    if steps != [] {
      var front, last := steps[..|steps| - 1], steps[|steps| - 1];
      RunOfOneGame(rules, agg, front);
      var before := RunGame(rules, agg, front);
      ApplyKeeps(rules, before, last.request, last.us);
      StepGrows(rules, before, last.request, last.us);
      GrowsIsTransitive(agg, before, RunGame(rules, agg, steps));
    }
  }

  // ----- acceptance -----

  /** A move the caller may expect to be accepted, in the game's own terms; p is the position
      the log replays to. */
  predicate Acceptable(rules: Rules, agg: Aggregate, p: Position, input: SubmitMove, us: nat) {
    var game := agg.game;
    var used := Elapsed(MoverTurnStart(game, Millis(us)), Millis(us));
    && LockGameClock(game, us).Some?
    && agg.ColorOf(input.guest) == Some(game.turnColor)
    && input.clientMoveId !in agg.commands
    && (game.status.InProgress? || game.status.Ready?)
    && input.expectedVersion == game.version
    && used < game.ClockOf(game.turnColor)
    && game.ClockOf(game.turnColor) - used + game.incrementMs <= MAX_INT4
    && ProposalWellFormed(rules, p, input.move) && rules.legal(p, input.move).Some?
    && EndsInTime(rules, agg.game, p.After(rules.legal(p, input.move).value), Millis(us))
  }

  /** If the position reached ends the game, the end is not before the start. */
  predicate EndsInTime(rules: Rules, game: GameRow, reached: Position, at: int) {
    GameOverAt(rules, reached).Over? ==> MayEndAt(game, at)
  }

  /** On a consistent game a move is accepted exactly when: the lock succeeds, the guest is
      the side to move, the id is new, the game is live and at the expected version, the
      mover's flag has not fallen, and the move is legal at the position the log replays to. */
  lemma AcceptedExactly(rules: Rules, agg: Aggregate, p: Position, input: SubmitMove, us: nat)
    requires rules.Faithful() && AggOk(rules, agg) && Replay(rules, agg.game.initialFen, agg.Ucis()) == Ok(p)
    ensures AcceptsMove(rules, agg, input, us) <==> Acceptable(rules, agg, p, input, us)
  {
    LogIsContiguous(rules, agg.game.initialFen, (agg.white.guest, agg.black.guest), agg.moves);
    if agg.game.status.InProgress? || agg.game.status.Ready? {
      AdmittedClockAccounts(agg.game, agg.moves, Millis(us));
      AdmittedExactly(agg, input, us);
      if Admitted(agg, input, us) {
        PlayableExactly(rules, agg, p, input, AdmittedClock(agg, input, us), Millis(us));
      }
    }
  }

  lemma AdmittedExactly(agg: Aggregate, input: SubmitMove, us: nat)
    requires agg.game.status.InProgress? || agg.game.status.Ready?
    requires ContiguousHistory(agg.moves)
    requires var admission := MoveAdmission(agg.game, agg.game.turnColor, Millis(us));
             && admission.Ok?
             && (admission.value.Accepted? <==>
                   Elapsed(MoverTurnStart(agg.game, Millis(us)), Millis(us)) < agg.game.ClockOf(agg.game.turnColor))
    ensures Admitted(agg, input, us) <==>
              && LockGameClock(agg.game, us).Some?
              && agg.ColorOf(input.guest) == Some(agg.game.turnColor)
              && input.clientMoveId !in agg.commands
              && input.expectedVersion == agg.game.version
              && Elapsed(MoverTurnStart(agg.game, Millis(us)), Millis(us)) < agg.game.ClockOf(agg.game.turnColor)
  {
  }

  lemma PlayableExactly(rules: Rules, agg: Aggregate, p: Position, input: SubmitMove, clock: Clock, at: int)
    requires rules.Faithful()
    requires Replay(rules, agg.game.initialFen, agg.Ucis()) == Ok(p)
    requires PositionFits(rules, agg.game, |agg.moves|, p)
    ensures Playable(rules, agg, input, agg.game.turnColor, clock, at) <==>
              && clock.whiteMs <= MAX_INT4 && clock.blackMs <= MAX_INT4
              && ProposalWellFormed(rules, p, input.move) && rules.legal(p, input.move).Some?
              && EndsInTime(rules, agg.game, p.After(rules.legal(p, input.move).value), at)
  {
    if rules.legal(p, input.move).Some? {
      assert rules.FaithfulMove(p, rules.legal(p, input.move).value);
    }
  }

  /** A move is answered as too late exactly when everything asked before the clock holds and
      the mover has used all the time the clock still showed. */
  lemma TooLateExactly(rules: Rules, agg: Aggregate, input: SubmitMove, us: nat)
    requires AggOk(rules, agg)
    ensures Answer(rules, agg, Submit(input), us) == Rejected(ClockExpired, Some(agg.game.version)) <==>
              && LockGameClock(agg.game, us).Some?
              && agg.ColorOf(input.guest) == Some(agg.game.turnColor)
              && input.clientMoveId !in agg.commands
              && (agg.game.status.InProgress? || agg.game.status.Ready?)
              && input.expectedVersion == agg.game.version
              && Elapsed(MoverTurnStart(agg.game, Millis(us)), Millis(us)) >= agg.game.ClockOf(agg.game.turnColor)
  {
    LogIsContiguous(rules, agg.game.initialFen, (agg.white.guest, agg.black.guest), agg.moves);
    if agg.game.status.InProgress? || agg.game.status.Ready? {
      AdmittedClockAccounts(agg.game, agg.moves, Millis(us));
    }
    TooLatePlan(rules, agg, input, us);
  }

  lemma TooLatePlan(rules: Rules, agg: Aggregate, input: SubmitMove, us: nat)
    requires ContiguousHistory(agg.moves)
    ensures PlanSubmit(rules, agg, input, us).response == Rejected(ClockExpired, Some(agg.game.version)) <==>
              && LockGameClock(agg.game, us).Some?
              && agg.ColorOf(input.guest) == Some(agg.game.turnColor)
              && input.clientMoveId !in agg.commands
              && (agg.game.status.InProgress? || agg.game.status.Ready?)
              && input.expectedVersion == agg.game.version
              && MoveAdmission(agg.game, agg.game.turnColor, Millis(us)).Ok?
              && MoveAdmission(agg.game, agg.game.turnColor, Millis(us)).value.FlagFall?
  {
  }

  /** No submission or resignation on a consistent game is answered with corruption:
      history, position, clock, engine turn and stored acknowledgements always check out. */
  lemma NeverCorrupt(rules: Rules, agg: Aggregate, request: Request, us: nat)
    requires rules.Faithful() && AggOk(rules, agg)
    ensures !SaysCorrupt(Answer(rules, agg, request, us))
  {
    if request.Submit? {
      SubmitNeverCorrupt(rules, agg, request.input, us);
    } else {
      OnlySubmitSaysCorrupt(rules, agg, request, us);
    }
  }

  predicate SaysCorrupt(answer: Response) { answer.Rejected? && answer.code.GameStateCorrupt? }

  lemma OnlySubmitSaysCorrupt(rules: Rules, agg: Aggregate, request: Request, us: nat)
    requires !request.Submit?
    ensures !SaysCorrupt(Answer(rules, agg, request, us))
  {
  }

  lemma SubmitNeverCorrupt(rules: Rules, agg: Aggregate, input: SubmitMove, us: nat)
    requires rules.Faithful() && AggOk(rules, agg)
    ensures !SaysCorrupt(PlanSubmit(rules, agg, input, us).response)
  {
    if Admitted(agg, input, us) {
      var p := Replay(rules, agg.game.initialFen, agg.Ucis()).value;
      AdmissionShape(rules, agg, input, us);
      EngineNeverCorrupt(rules, agg, p, input, AdmittedClock(agg, input, us), Millis(us));
    } else {
      LogIsContiguous(rules, agg.game.initialFen, (agg.white.guest, agg.black.guest), agg.moves);
      if input.clientMoveId in agg.commands {
        assert CommandOk(agg, input.clientMoveId, agg.commands[input.clientMoveId]);
      }
      RefusedNeverCorrupt(rules, agg, input, us);
    }
  }

  lemma RefusedNeverCorrupt(rules: Rules, agg: Aggregate, input: SubmitMove, us: nat)
    requires RowOk(agg.game) && ClocksOk(agg.game, agg.moves) && ContiguousHistory(agg.moves)
    requires agg.game.status.InProgress? || agg.game.status.Ready? ==> agg.game.turnColor == ColorAt(|agg.moves|)
    requires input.clientMoveId in agg.commands ==>
               CommandOk(agg, input.clientMoveId, agg.commands[input.clientMoveId])
    requires !Admitted(agg, input, us)
    ensures !SaysCorrupt(PlanSubmit(rules, agg, input, us).response)
  {
    if agg.game.status.InProgress? || agg.game.status.Ready? {
      AdmittedClockAccounts(agg.game, agg.moves, Millis(us));
    }
  }

  lemma EngineNeverCorrupt(rules: Rules, agg: Aggregate, p: Position, input: SubmitMove, clock: Clock, observedAt: int)
    requires rules.Faithful()
    requires Replay(rules, agg.game.initialFen, agg.Ucis()) == Ok(p)
    requires PositionFits(rules, agg.game, |agg.moves|, p)
    ensures !SaysCorrupt(PlanEvaluatedMove(rules, agg, input, agg.game.turnColor, clock, observedAt).response)
  {
    if rules.legal(p, input.move).Some? {
      assert rules.FaithfulMove(p, rules.legal(p, input.move).value);
    }
  }

  /** What an accepted move leaves behind, in the game's own terms: p is the position before,
      move what the rules made of the proposal. */
  predicate MoveApplied(
    rules: Rules, agg: Aggregate, after: Aggregate, input: SubmitMove, p: Position, move: LegalMove, at: int)
  {
    var mover := agg.game.turnColor;
    var q := p.After(move);
    && after.game.ClockOf(mover) ==
       agg.game.ClockOf(mover) - Elapsed(MoverTurnStart(agg.game, at), at) + agg.game.incrementMs
    && after.game.ClockOf(mover.Opposite()) == agg.game.ClockOf(mover.Opposite())
    && after.game.turnColor == mover.Opposite()
    && after.game.currentFen == rules.fen(q) && after.game.pgn == PgnAt(rules, q)
    && after.game.version == agg.game.version + (if agg.game.status.Ready? then 2 else 1)
    && after.game.startedAt == (if agg.game.status.Ready? then Some(at) else agg.game.startedAt)
    && (after.game.status.Completed? <==> GameOverAt(rules, q).Over?)
    && (!after.game.status.Completed? ==> after.game.status.InProgress? && after.game.turnStartedAt == Some(at))
    && (rules.checkmate(q) ==>
          && after.game.termination == Some(Checkmate)
          && after.game.result == Some(if mover.White? then WhiteWin else BlackWin))
    && after.moves == agg.moves + [
         MoveRow(|agg.moves| + 1, input.clientMoveId, input.guest, mover, move.san, move.Uci(),
                 agg.game.currentFen, rules.fen(q), at)]
    && after.white == agg.white && after.black == agg.black
  }

  lemma AcceptedMoveEffects(
    rules: Rules, agg: Aggregate, input: SubmitMove, us: nat, p: Position, move: LegalMove)
    requires rules.Faithful() && AggOk(rules, agg) && AcceptsMove(rules, agg, input, us)
    requires Replay(rules, agg.game.initialFen, agg.Ucis()) == Ok(p) && rules.legal(p, input.move) == Some(move)
    ensures MoveApplied(rules, agg, Apply(rules, agg, Submit(input), us), input, p, move, Millis(us))
  {
    SubmitShape(rules, agg, input, us);
    AcceptedIsEvaluated(rules, agg, input, us, p, move);
    AcceptedPlanApplies(rules, agg, input, p, move, AdmittedClock(agg, input, us), Millis(us));
  }

  /** What acceptance says about clock and engine. */
  lemma AcceptedIsEvaluated(rules: Rules, agg: Aggregate, input: SubmitMove, us: nat, p: Position, move: LegalMove)
    requires rules.Faithful() && AggOk(rules, agg) && AcceptsMove(rules, agg, input, us)
    requires Replay(rules, agg.game.initialFen, agg.Ucis()) == Ok(p) && rules.legal(p, input.move) == Some(move)
    ensures agg.game.status.InProgress? || agg.game.status.Ready?
    ensures ClockMoves(agg.game, agg.game.turnColor, AdmittedClock(agg, input, us), Millis(us))
    ensures rules.fen(p) == agg.game.currentFen && move.color == agg.game.turnColor
    ensures EvaluationOf(rules, agg, input) == EvaluateAt(rules, p, input.move, |agg.moves| + 1)
    ensures EvaluationOf(rules, agg, input).Ok?
    ensures var over := GameOverAt(rules, p.After(move)); over.Over? ==> BoardOutcome(over).Some?
    ensures rules.turn(p.After(move)) == agg.game.turnColor.Opposite()
  {
    AdmittedClockAccounts(agg.game, agg.moves, Millis(us));
    assert rules.FaithfulMove(p, move);
  }

  lemma AcceptedPlanApplies(
    rules: Rules, agg: Aggregate, input: SubmitMove, p: Position, move: LegalMove, clock: Clock, at: int)
    requires agg.game.status.InProgress? || agg.game.status.Ready?
    requires ClockMoves(agg.game, agg.game.turnColor, clock, at)
    requires rules.fen(p) == agg.game.currentFen && rules.legal(p, input.move) == Some(move)
    requires EvaluateAt(rules, p, input.move, |agg.moves| + 1).Ok? && move.color == agg.game.turnColor
    requires var over := GameOverAt(rules, p.After(move)); over.Over? ==> BoardOutcome(over).Some?
    requires rules.turn(p.After(move)) == agg.game.turnColor.Opposite()
    ensures var e := EvaluateAt(rules, p, input.move, |agg.moves| + 1).value;
            var plan := PlanAcceptedMove(agg, input, agg.game.turnColor, clock, at, e, BoardOutcome(e.gameOver));
            MoveApplied(rules, agg, Execute(agg, plan), input, p, move, at)
  {
  }
}
