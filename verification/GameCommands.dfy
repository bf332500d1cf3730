/** Exactly-once commands: an accepted move or resignation is stored under its id, and any
    later retry of that id is answered from the store without changing anything. */
module GameCommands {
  import opened Domain
  import opened GameClock
  import opened ChessEngine
  import opened GameRows
  import opened GameInvariant
  import opened GameMoves
  import opened GameHistory

  /** A client command: a move submission or a resignation. */
  predicate IsCommand(request: Request) { request.Submit? || request.ResignRequest? }

  function CommandId(request: Request): EventId
    requires IsCommand(request)
  {
    if request.Submit? then request.input.clientMoveId else request.resign.eventId
  }

  function CommandGuest(request: Request): GuestId
    requires IsCommand(request)
  {
    if request.Submit? then request.input.guest else request.resign.guest
  }

  /** The answer newly commits the command: it reports success and is not a replay. */
  predicate NewlyAccepted(answer: Response) {
    (answer.Moved? && !answer.moved.duplicate) || (answer.Ended? && !answer.terminal.duplicate)
  }

  function AsDuplicate(answer: Response): Response
    requires answer.Moved? || answer.Ended?
  {
    if answer.Moved? then Moved(answer.moved.(duplicate := true)) else Ended(answer.terminal.(duplicate := true))
  }

  /** What is stored for an acceptance. */
  predicate Stored(commands: map<EventId, Command>, request: Request, answer: Response)
    requires IsCommand(request)
  {
    var id := CommandId(request);
    && id in commands
    && commands[id].guest == CommandGuest(request)
    && (match commands[id]
        case MoveCommand(_, moved, _) => request.Submit? && answer == Moved(moved)
        case ResignCommand(_, ended, _) => request.ResignRequest? && answer == Ended(ended))
  }

  /** An acceptance is stored under its id; a command that changes anything is an acceptance. */
  lemma AcceptanceIsStored(rules: Rules, agg: Aggregate, request: Request, us: nat)
    requires IsCommand(request)
    ensures var answer := Answer(rules, agg, request, us);
            var after := Apply(rules, agg, request, us);
            && (NewlyAccepted(answer) ==>
                  Stored(after.commands, request, answer) && CommandId(request) !in agg.commands)
            && (after != agg ==> NewlyAccepted(answer))
  {
    if request.Submit? {
      SubmissionIsStored(rules, agg, request.input, us);
    } else {
      EndingShape(rules, agg, request, us);
      ResignAcceptance(agg, request.resign, us);
    }
  }

  lemma SubmissionIsStored(rules: Rules, agg: Aggregate, input: SubmitMove, us: nat)
    ensures var plan := PlanSubmit(rules, agg, input, us);
            && (NewlyAccepted(plan.response) ==>
                  && Stored(Execute(agg, plan).commands, Submit(input), plan.response)
                  && input.clientMoveId !in agg.commands)
            && (Execute(agg, plan) != agg ==> NewlyAccepted(plan.response))
  {
    SubmitShape(rules, agg, input, us);
    if AcceptsMove(rules, agg, input, us) {
      var e := EvaluationOf(rules, agg, input).value;
      MovePlanStores(
        agg, input, agg.game.turnColor, AdmittedClock(agg, input, us), Millis(us), e, BoardOutcome(e.gameOver));
    }
  }

  lemma MovePlanStores(
    agg: Aggregate, input: SubmitMove, mover: Color, clock: Clock, observedAt: int,
    e: Evaluation, terminal: Option<TerminalOutcome>)
    ensures var plan := PlanAcceptedMove(agg, input, mover, clock, observedAt, e, terminal);
            NewlyAccepted(plan.response) && Stored(Execute(agg, plan).commands, Submit(input), plan.response)
  {
  }

  lemma ResignAcceptance(agg: Aggregate, input: ResignGame, us: nat)
    ensures var plan := PlanResign(agg, input, us);
            if plan.game.None? then plan == ReadOnly(plan.response) && !NewlyAccepted(plan.response)
            else
              && input.eventId !in agg.commands
              && plan.response.Ended? && !plan.response.terminal.duplicate
              && plan.command ==
                 Some((input.eventId, ResignCommand(input.guest, plan.response.terminal, agg.game.version + 1)))
  {
  }

  /** On a consistent game, a retry of a stored command by its guest returns the stored answer
      marked as a duplicate, whatever move or version it carries, and changes nothing.  The
      one exception is a failed locking statement. */
  lemma RetryReturnsStored(rules: Rules, agg: Aggregate, request: Request, us: nat, stored: Response)
    requires AggOk(rules, agg) && IsCommand(request) && Stored(agg.commands, request, stored)
    ensures Apply(rules, agg, request, us) == agg
    ensures Answer(rules, agg, request, us) ==
            if LockGameClock(agg.game, us).Some? then AsDuplicate(stored) else TransactionFailed
  {
    StoredGuestPlays(rules, agg, CommandId(request));
    RetryPlan(rules, agg, request, us, stored);
  }

  /** A stored command is well-formed and its guest plays the game. */
  lemma StoredGuestPlays(rules: Rules, agg: Aggregate, id: EventId)
    requires AggOk(rules, agg) && id in agg.commands
    ensures agg.ColorOf(agg.commands[id].guest).Some?
    ensures match agg.commands[id]
            case MoveCommand(_, moved, _) => MoveSchema(moved)
            case ResignCommand(_, ended, _) => TerminalSchema(ended)
  {
    var c := agg.commands[id];
    assert CommandOk(agg, id, c);
    if c.MoveCommand? {
      LogEntry(rules, agg.game.initialFen, (agg.white.guest, agg.black.guest), agg.moves, c.moved.accepted.ply - 1);
    }
  }

  lemma RetryPlan(rules: Rules, agg: Aggregate, request: Request, us: nat, stored: Response)
    requires IsCommand(request) && Stored(agg.commands, request, stored)
    requires agg.ColorOf(CommandGuest(request)).Some?
    requires match agg.commands[CommandId(request)]
             case MoveCommand(_, moved, _) => MoveSchema(moved)
             case ResignCommand(_, ended, _) => TerminalSchema(ended)
    ensures PlanFor(rules, agg, request, us) ==
            ReadOnly(if LockGameClock(agg.game, us).Some? then AsDuplicate(stored) else TransactionFailed)
  {
  }

  /** An id belongs to one command: the other kind, or another guest, is refused. */
  lemma ForeignReuseIsRefused(rules: Rules, agg: Aggregate, request: Request, us: nat)
    requires AggOk(rules, agg) && IsCommand(request) && CommandId(request) in agg.commands
    requires agg.ColorOf(CommandGuest(request)).Some? && LockGameClock(agg.game, us).Some?
    requires var c := agg.commands[CommandId(request)];
             c.guest != CommandGuest(request) || c.MoveCommand? != request.Submit?
    ensures Answer(rules, agg, request, us) == Rejected(IdempotencyKeyReused, None)
    ensures Apply(rules, agg, request, us) == agg
  {
  }

  /** Over whole runs: between the acceptance and the retry anything may happen to the game,
      including its end; the retry still returns the original answer and changes nothing. */
  lemma ExactlyOnce(
    rules: Rules, agg: Aggregate, request: Request, us: nat, later: seq<Timed>, retry: Request, retryUs: nat)
    requires rules.Faithful() && AggOk(rules, agg)
    requires IsCommand(request) && NewlyAccepted(Answer(rules, agg, request, us))
    requires IsCommand(retry) && retry.Submit? == request.Submit?
    requires CommandId(retry) == CommandId(request) && CommandGuest(retry) == CommandGuest(request)
    ensures var now := RunGame(rules, Apply(rules, agg, request, us), later);
            && Apply(rules, now, retry, retryUs) == now
            && Answer(rules, now, retry, retryUs) ==
               if LockGameClock(now.game, retryUs).Some?
               then AsDuplicate(Answer(rules, agg, request, us))
               else TransactionFailed
  {
    var accepted := Apply(rules, agg, request, us);
    ApplyKeeps(rules, agg, request, us);
    AcceptanceIsStored(rules, agg, request, us);
    RunOfOneGame(rules, accepted, later);
    var now := RunGame(rules, accepted, later);
    var answer := Answer(rules, agg, request, us);
    assert Stored(now.commands, retry, answer) by {
      assert CommandId(request) in accepted.commands;
    }
    RetryReturnsStored(rules, now, retry, retryUs, answer);
  }

  /** After the game has ended the locking statement projects nothing, so it never fails. */
  lemma EndedGamesAlwaysLock(game: GameRow, us: nat)
    requires game.status.Terminal()
    ensures LockGameClock(game, us).Some?
  {
  }

  /** A MOVE command names the row stored under its own id. */
  predicate NamesItsRow(agg: Aggregate, e: EventId)
    requires e in agg.commands && agg.commands[e].MoveCommand?
  {
    var ply := agg.commands[e].moved.accepted.ply;
    1 <= ply <= |agg.moves| && agg.moves[ply - 1].clientMoveId == e
  }

  /** MOVE commands and move rows are in one-to-one correspondence. */
  lemma MovesAndCommandsCorrespond(agg: Aggregate)
    requires CommandsOk(agg)
    ensures forall i :: 0 <= i < |agg.moves| ==> MoveRecorded(agg, i)
    ensures forall e :: e in agg.commands && agg.commands[e].MoveCommand? ==> NamesItsRow(agg, e)
    ensures forall i, j :: 0 <= i < j < |agg.moves| ==> agg.moves[i].clientMoveId != agg.moves[j].clientMoveId
  {
    forall e | e in agg.commands && agg.commands[e].MoveCommand?
      ensures NamesItsRow(agg, e)
    {
      assert CommandOk(agg, e, agg.commands[e]);
    }
    forall i, j | 0 <= i < j < |agg.moves|
      ensures agg.moves[i].clientMoveId != agg.moves[j].clientMoveId
    {
      assert MoveRecorded(agg, i) && MoveRecorded(agg, j);
    }
  }
}
