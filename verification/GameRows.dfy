/** One durable game: its rows, and the transactions that change them.  Each transaction
    is a decision over the rows it reads under the game's row lock; the decision is a
    Plan, the list of statements it then issues in order. */
module GameRows {
  import opened Domain
  import opened GameClock
  import opened ChessEngine

  // ----- rows -----

  datatype GameRow = GameRow(
    id: GameId,
    matchId: MatchId,
    status: Status,
    initialFen: string,
    currentFen: string,
    turnColor: Color,
    pgn: string,
    version: nat,
    result: Option<GameResult>,
    termination: Option<Termination>,
    timeInitialMs: int,
    incrementMs: int,
    whiteClockMs: int,
    blackClockMs: int,
    turnStartedAt: Option<int>,
    joinDeadlineAt: Option<int>,
    reconnectDeadlineAt: Option<int>,
    startedAt: Option<int>,
    endedAt: Option<int>)
  {
    function ClockOf(color: Color): int {
      if color.White? then whiteClockMs else blackClockMs
    }
  }

  datatype PlayerRow = PlayerRow(
    guest: GuestId,
    joinedAt: Option<int>,
    connectedAt: Option<int>,
    disconnectedAt: Option<int>,
    graceEndsAt: Option<int>)

  datatype MoveRow = MoveRow(
    ply: nat,
    clientMoveId: EventId,
    guest: GuestId,
    color: Color,
    san: string,
    uci: string,
    fenBefore: string,
    fenAfter: string,
    receivedAt: int)

  datatype Command =
    | MoveCommand(guest: GuestId, moved: MoveSubmission, resultVersion: nat)
    | ResignCommand(guest: GuestId, ended: TerminalSubmission, resultVersion: nat)

  /** All rows belonging to one game.  Slot 0 is white, slot 1 is black. */
  datatype Aggregate = Aggregate(
    game: GameRow,
    white: PlayerRow,
    black: PlayerRow,
    moves: seq<MoveRow>,
    commands: map<EventId, Command>)
  {
    function Player(color: Color): PlayerRow {
      if color.White? then white else black
    }

    function WithPlayer(color: Color, row: PlayerRow): Aggregate {
      if color.White? then this.(white := row) else this.(black := row)
    }

    /** The colour a guest plays, looked up in slot order. */
    function ColorOf(guest: GuestId): Option<Color> {
      if white.guest == guest then Some(White)
      else if black.guest == guest then Some(Black)
      else None
    }

    function Ucis(): seq<string> { UciList(moves) }
  }

  function UciList(moves: seq<MoveRow>): (ucis: seq<string>)
    ensures |ucis| == |moves|
    ensures forall i :: 0 <= i < |moves| ==> ucis[i] == moves[i].uci
  {
    seq(|moves|, i requires 0 <= i < |moves| => moves[i].uci)
  }

  // ----- requests and responses -----

  datatype GameplayClock = GameplayClock(whiteMs: int, blackMs: int, running: Option<Color>, observedAt: int)

  datatype AcceptedMove = AcceptedMove(
    check: bool,
    clientMoveId: EventId,
    clocks: GameplayClock,
    fenAfter: string,
    gameVersion: nat,
    ply: nat,
    san: string,
    turn: Color,
    uci: string)

  datatype StartedGame = StartedGame(clocks: GameplayClock, gameVersion: nat, initialFen: string)

  datatype EndedGame = EndedGame(
    clocks: GameplayClock,
    finalFen: string,
    gameVersion: nat,
    pgn: string,
    result: GameResult,
    termination: Termination)

  datatype MoveSubmission = MoveSubmission(
    accepted: AcceptedMove,
    duplicate: bool,
    ended: Option<EndedGame>,
    started: Option<StartedGame>,
    guests: (GuestId, GuestId))

  datatype TerminalSubmission = TerminalSubmission(
    duplicate: bool,
    ended: EndedGame,
    guests: (GuestId, GuestId))

  datatype ErrorCode =
    | ClockExpired
    | GameAlreadyEnded
    | GameNotFound
    | GameStateCorrupt
    | GameUnavailable
    | IdempotencyKeyReused
    | MoveIllegal
    | NotAPlayer
    | NotYourTurn
    | StaleGameVersion

  datatype SubmitMove = SubmitMove(clientMoveId: EventId, expectedVersion: int, guest: GuestId, move: MoveInput)

  datatype ResignGame = ResignGame(eventId: EventId, expectedVersion: int, guest: GuestId)

  datatype Request =
    | MarkReady(guest: GuestId, expectedVersion: int, observedAt: int)
    | StartIfReady
    | Submit(input: SubmitMove)
    | ResignRequest(resign: ResignGame)
    | TerminateForReset(resetGuest: GuestId)
    | MarkDisconnected(awayGuest: GuestId, graceMs: nat)
    | MarkReconnected(backGuest: GuestId)
    | AdjudicateTimeout
    | AdjudicateNoShow
    | AdjudicateAbandonment(absentGuests: seq<GuestId>)

  datatype Response =
    | NoEvent
    | Rejected(code: ErrorCode, authoritativeVersion: Option<nat>)
    | ReadyGame(ready: GameRow)
    | FoundGame(found: GameRow, started: bool)
    | Moved(moved: MoveSubmission)
    | Ended(terminal: TerminalSubmission)
    | PlayerAway(awayColor: Color, awayVersion: nat, graceDeadline: int)
    | PlayerBack(backColor: Color, backVersion: nat)
    | TransactionFailed

  // ----- plans -----

  /** The statements a transaction issues after reading, in the order it issues them:
      one player row, the version-guarded game row, the clearing of both players'
      disconnect columns, one move row, the removal of the game's assignments, one command row. */
  datatype Plan = Plan(
    player: Option<(Color, PlayerRow)>,
    game: Option<GameRow>,
    clearPlayers: bool,
    move: Option<MoveRow>,
    dropAssignments: bool,
    command: Option<(EventId, Command)>,
    response: Response)

  function ReadOnly(response: Response): Plan {
    Plan(None, None, false, None, false, None, response)
  }

  function Cleared(row: PlayerRow): PlayerRow {
    row.(disconnectedAt := None, graceEndsAt := None)
  }

  function WritePlayer(agg: Aggregate, plan: Plan): Aggregate {
    match plan.player
    case None => agg
    case Some(write) => agg.WithPlayer(write.0, write.1)
  }

  function WriteGame(agg: Aggregate, plan: Plan): Aggregate {
    match plan.game
    case None => agg
    case Some(row) => agg.(game := row)
  }

  function ClearPlayers(agg: Aggregate, plan: Plan): Aggregate {
    if plan.clearPlayers then agg.(white := Cleared(agg.white), black := Cleared(agg.black)) else agg
  }

  function InsertMove(agg: Aggregate, plan: Plan): Aggregate {
    match plan.move
    case None => agg
    case Some(row) => agg.(moves := agg.moves + [row])
  }

  function InsertCommand(agg: Aggregate, plan: Plan): Aggregate {
    match plan.command
    case None => agg
    case Some(entry) => agg.(commands := agg.commands[entry.0 := entry.1])
  }

  /** The whole plan carried out with nothing in between. */
  function Execute(agg: Aggregate, plan: Plan): Aggregate {
    InsertCommand(InsertMove(ClearPlayers(WriteGame(WritePlayer(agg, plan), plan), plan), plan), plan)
  }

  // ----- the locking read -----

  datatype LockedClock = LockedClock(
    status: Status,
    turnColor: Color,
    turnStartedAt: Option<int>,
    version: nat,
    whiteClockMs: int,
    blackClockMs: int,
    observedAt: int)

  /** The row as the locking statement projects it.  None: an INTEGER overflow failed the statement. */
  function LockGameClock(row: GameRow, us: nat): Option<LockedClock> {
    var plain := LockedClock(row.status, row.turnColor, row.turnStartedAt, row.version,
                             row.whiteClockMs, row.blackClockMs, Millis(us));
    if row.status.Running() && row.turnStartedAt.Some? then
      match SqlRemaining(row.ClockOf(row.turnColor), row.turnStartedAt.value, us)
      case None => None
      case Some(remaining) =>
        Some(if row.turnColor.White? then plain.(whiteClockMs := remaining)
             else plain.(blackClockMs := remaining))
    else Some(plain)
  }

  // ----- stored acknowledgements -----

  predicate ClockSchema(c: GameplayClock) { c.whiteMs >= 0 && c.blackMs >= 0 && c.observedAt >= 0 }

  predicate EndedSchema(e: EndedGame) { ClockSchema(e.clocks) && e.finalFen != "" }

  /** The shape a stored move acknowledgement is re-parsed against. */
  predicate MoveSchema(s: MoveSubmission) {
    && ClockSchema(s.accepted.clocks)
    && s.accepted.fenAfter != "" && s.accepted.ply > 0 && s.accepted.san != "" && IsUci(s.accepted.uci)
    && (s.ended.Some? ==> EndedSchema(s.ended.value))
    && (s.started.Some? ==> ClockSchema(s.started.value.clocks) && s.started.value.initialFen != "")
  }

  /** The shape a stored resignation acknowledgement is re-parsed against. */
  predicate TerminalSchema(s: TerminalSubmission) {
    EndedSchema(s.ended) && s.ended.clocks.running.None?
  }

  function ReplayMove(command: Command, guest: GuestId): Response {
    if !command.MoveCommand? || command.guest != guest then Rejected(IdempotencyKeyReused, None)
    else if !MoveSchema(command.moved) then Rejected(GameStateCorrupt, None)
    else Moved(command.moved.(duplicate := true))
  }

  function ReplayResign(command: Command, guest: GuestId): Response {
    if !command.ResignCommand? || command.guest != guest then Rejected(IdempotencyKeyReused, None)
    else if !TerminalSchema(command.ended) then Rejected(IdempotencyKeyReused, None)
    else Ended(command.ended.(duplicate := true))
  }

  // ----- readiness and start -----

  function PlanMarkReady(agg: Aggregate, guest: GuestId, expectedVersion: int, observedAt: int): Plan {
    match agg.ColorOf(guest)
    case None => ReadOnly(Rejected(NotAPlayer, None))
    case Some(color) =>
      var player := agg.Player(color);
      var idempotent := player.joinedAt.Some? && (agg.game.status.Ready? || agg.game.status.Running());
      if expectedVersion != agg.game.version && !idempotent then
        ReadOnly(Rejected(StaleGameVersion, Some(agg.game.version)))
      else if !(agg.game.status.WaitingForPlayers? || agg.game.status.Ready? || agg.game.status.Running()) then
        ReadOnly(Rejected(GameUnavailable, None))
      else
        var marked := player.(
          connectedAt := Some(observedAt),
          joinedAt := if player.joinedAt.Some? then player.joinedAt else Some(observedAt));
        var bothJoined := agg.Player(color.Opposite()).joinedAt.Some?;
        var game :=
          if agg.game.status.WaitingForPlayers? && bothJoined
          then Some(agg.game.(status := Ready, version := agg.game.version + 1))
          else None;
        Plan(Some((color, marked)), game, false, None, false, None,
             ReadyGame(if game.Some? then game.value else agg.game))
  }

  function PlanStart(agg: Aggregate, us: nat): Plan {
    match LockGameClock(agg.game, us)
    case None => ReadOnly(TransactionFailed)
    case Some(locked) =>
      if locked.status.Ready? then
        var row := agg.game.(
          startedAt := Some(locked.observedAt),
          status := InProgress,
          turnStartedAt := Some(locked.observedAt),
          version := locked.version + 1);
        Plan(None, Some(row), false, None, false, None, FoundGame(row, true))
      else ReadOnly(FoundGame(agg.game, false))
  }

  // ----- endings -----

  /** Ending a game: projected clocks and the outcome into the game row, disconnect
      columns cleared, assignments removed. */
  function PlanFinalize(
    agg: Aggregate, locked: LockedClock, outcome: TerminalOutcome, resignation: Option<(EventId, GuestId)>): Plan
  {
    var row := agg.game.(
      blackClockMs := locked.blackClockMs,
      endedAt := Some(locked.observedAt),
      reconnectDeadlineAt := None,
      result := Some(outcome.result),
      status := outcome.status,
      termination := Some(outcome.termination),
      turnStartedAt := None,
      version := agg.game.version + 1,
      whiteClockMs := locked.whiteClockMs);
    var submission := TerminalSubmission(
      false,
      EndedGame(
        GameplayClock(locked.whiteClockMs, locked.blackClockMs, None, locked.observedAt),
        agg.game.currentFen, row.version, agg.game.pgn, outcome.result, outcome.termination),
      (agg.white.guest, agg.black.guest));
    var command :=
      match resignation
      case None => None
      case Some(key) => Some((key.0, ResignCommand(key.1, submission, row.version)));
    Plan(None, Some(row), true, None, true, command, Ended(submission))
  }

  /** The row constraint on ended games: the end is not before the start. */
  predicate EndsBeforeStart(game: GameRow, endedAt: int) {
    game.startedAt.Some? && endedAt < game.startedAt.value
  }

  /** Finalizing with a derived outcome; a derivation error, or an end before the start, fails the transaction. */
  function PlanOutcome(
    agg: Aggregate, locked: LockedClock, event: TerminalEvent, resignation: Option<(EventId, GuestId)>): Plan
  {
    match DeriveTerminalOutcome(event)
    case Err(_) => ReadOnly(TransactionFailed)
    case Ok(outcome) =>
      if EndsBeforeStart(agg.game, locked.observedAt) then ReadOnly(TransactionFailed)
      else PlanFinalize(agg, locked, outcome, resignation)
  }

  function PlanResign(agg: Aggregate, input: ResignGame, us: nat): Plan {
    match LockGameClock(agg.game, us)
    case None => ReadOnly(TransactionFailed)
    case Some(locked) =>
      match agg.ColorOf(input.guest)
      case None => ReadOnly(Rejected(NotAPlayer, Some(agg.game.version)))
      case Some(color) =>
        if input.eventId in agg.commands then
          ReadOnly(ReplayResign(agg.commands[input.eventId], input.guest))
        else if !agg.game.status.Running() then
          ReadOnly(Rejected(GameAlreadyEnded, Some(agg.game.version)))
        else if input.expectedVersion != agg.game.version then
          ReadOnly(Rejected(StaleGameVersion, Some(agg.game.version)))
        else
          PlanOutcome(agg, locked, ResignationEvent(color), Some((input.eventId, input.guest)))
  }

  function PlanReset(agg: Aggregate, guest: GuestId, us: nat): Plan {
    match LockGameClock(agg.game, us)
    case None => ReadOnly(TransactionFailed)
    case Some(locked) =>
      if !(agg.game.status.Running() || agg.game.status.Ready? || agg.game.status.WaitingForPlayers?) then
        ReadOnly(NoEvent)
      else
        match agg.ColorOf(guest)
        case None => ReadOnly(NoEvent)
        case Some(color) => PlanOutcome(agg, locked, AbandonmentEvent([color]), None)
  }

  function PlanTimeout(agg: Aggregate, us: nat): Plan {
    match LockGameClock(agg.game, us)
    case None => ReadOnly(TransactionFailed)
    case Some(locked) =>
      if !locked.status.Running() then ReadOnly(NoEvent)
      else if (if locked.turnColor.White? then locked.whiteClockMs else locked.blackClockMs) > 0 then
        ReadOnly(NoEvent)
      else PlanOutcome(agg, locked, TimeoutEvent(locked.turnColor), None)
  }

  function JoinedColors(agg: Aggregate): seq<Color> {
    (if agg.white.joinedAt.Some? then [White] else []) + (if agg.black.joinedAt.Some? then [Black] else [])
  }

  function PlanNoShow(agg: Aggregate, us: nat): Plan {
    match LockGameClock(agg.game, us)
    case None => ReadOnly(TransactionFailed)
    case Some(locked) =>
      if !locked.status.WaitingForPlayers? then ReadOnly(NoEvent)
      else if agg.game.joinDeadlineAt.None? || agg.game.joinDeadlineAt.value > locked.observedAt then
        ReadOnly(NoEvent)
      else PlanOutcome(agg, locked, NoShowEvent(JoinedColors(agg)), None)
  }

  function AbsentColors(agg: Aggregate, absent: seq<GuestId>): seq<Color> {
    (if agg.white.guest in absent then [White] else []) + (if agg.black.guest in absent then [Black] else [])
  }

  predicate GraceExpired(player: PlayerRow, now: int) {
    player.graceEndsAt.Some? && player.graceEndsAt.value <= now
  }

  /** Some named player is not recorded as disconnected. */
  predicate NamesSomeoneHere(agg: Aggregate, absent: seq<GuestId>) {
    || (agg.white.guest in absent && (agg.white.disconnectedAt.None? || agg.white.graceEndsAt.None?))
    || (agg.black.guest in absent && (agg.black.disconnectedAt.None? || agg.black.graceEndsAt.None?))
  }

  /** Some named player's grace is over. */
  predicate NamesSomeoneExpired(agg: Aggregate, absent: seq<GuestId>, now: int) {
    || (agg.white.guest in absent && GraceExpired(agg.white, now))
    || (agg.black.guest in absent && GraceExpired(agg.black, now))
  }

  function PlanAbandonment(agg: Aggregate, absent: seq<GuestId>, us: nat): Plan {
    match LockGameClock(agg.game, us)
    case None => ReadOnly(TransactionFailed)
    case Some(locked) =>
      var colors := AbsentColors(agg, absent);
      if !locked.status.Reconnecting? then ReadOnly(NoEvent)
      else if colors == [] || NamesSomeoneHere(agg, absent)
        || !NamesSomeoneExpired(agg, absent, locked.observedAt) then
        ReadOnly(NoEvent)
      else PlanOutcome(agg, locked, AbandonmentEvent(colors), None)
  }

  // ----- disconnects -----

  function Earliest(a: Option<int>, b: Option<int>): Option<int> {
    if a.None? then b else if b.None? then a else if b.value < a.value then b else a
  }

  function PlanDisconnected(agg: Aggregate, guest: GuestId, graceMs: nat, us: nat): Plan {
    match LockGameClock(agg.game, us)
    case None => ReadOnly(TransactionFailed)
    case Some(locked) =>
      match agg.ColorOf(guest)
      case None => ReadOnly(NoEvent)
      case Some(color) =>
        var player := agg.Player(color);
        if !agg.game.status.Running() then
          if agg.game.status.WaitingForPlayers?
          then ReadOnly(NoEvent).(player := Some((color, player.(connectedAt := None))))
          else ReadOnly(NoEvent)
        else if player.disconnectedAt.Some? then ReadOnly(NoEvent)
        else
          var graceDeadline := locked.observedAt + graceMs;
          var row := agg.game.(
            reconnectDeadlineAt := Earliest(Some(graceDeadline), agg.Player(color.Opposite()).graceEndsAt),
            status := Reconnecting,
            version := agg.game.version + 1);
          var away := player.(
            connectedAt := None,
            disconnectedAt := Some(locked.observedAt),
            graceEndsAt := Some(graceDeadline));
          Plan(Some((color, away)), Some(row), false, None, false, None,
               PlayerAway(color, row.version, graceDeadline))
  }

  function PlanReconnected(agg: Aggregate, guest: GuestId, us: nat): Plan {
    match LockGameClock(agg.game, us)
    case None => ReadOnly(TransactionFailed)
    case Some(locked) =>
      if !agg.game.status.Reconnecting? then ReadOnly(NoEvent)
      else
        match agg.ColorOf(guest)
        case None => ReadOnly(NoEvent)
        case Some(color) =>
          var player := agg.Player(color);
          if player.disconnectedAt.None? then ReadOnly(NoEvent)
          else
            var remaining := agg.Player(color.Opposite()).graceEndsAt;
            var row := agg.game.(
              reconnectDeadlineAt := remaining,
              status := if remaining.None? then InProgress else Reconnecting,
              version := agg.game.version + 1);
            var back := player.(
              connectedAt := Some(locked.observedAt),
              disconnectedAt := None,
              graceEndsAt := None);
            Plan(Some((color, back)), Some(row), false, None, false, None, PlayerBack(color, row.version))
  }

  // ----- moves -----

  predicate ContiguousHistory(moves: seq<MoveRow>) {
    forall i :: 0 <= i < |moves| ==> moves[i].ply == i + 1
  }

  /** The clock a move is admitted on: resumed at the move's own instant on the first move out of READY. */
  function MoveAdmission(game: GameRow, mover: Color, observedAt: int): Result<Admission, DomainError> {
    var base := Clock(
      game.whiteClockMs, game.blackClockMs, game.incrementMs,
      if game.status.Ready? then None else Some(mover),
      if game.status.Ready? then None else game.turnStartedAt);
    if game.status.Ready? then
      match ResumeClock(base, White, observedAt)
      case Err(e) => Err(e)
      case Ok(running) => AdmitMoveOnClock(running, mover, observedAt)
    else AdmitMoveOnClock(base, mover, observedAt)
  }

  /** The statements of an accepted move. */
  function PlanAcceptedMove(
    agg: Aggregate, input: SubmitMove, mover: Color, clock: Clock, observedAt: int,
    evaluation: Evaluation, terminal: Option<TerminalOutcome>): Plan
  {
    var game := agg.game;
    var startedVersion := if game.status.Ready? then game.version + 1 else game.version;
    var resultVersion := startedVersion + 1;
    var nextTurn := mover.Opposite();
    var clocks :=
      GameplayClock(clock.whiteMs, clock.blackMs, if terminal.None? then Some(nextTurn) else None, observedAt);
    var accepted := AcceptedMove(
      evaluation.applied.check, input.clientMoveId, clocks, evaluation.applied.fenAfter, resultVersion,
      evaluation.applied.plyNumber, evaluation.applied.san, nextTurn, evaluation.applied.uci);
    var started :=
      if game.status.Ready?
      then Some(StartedGame(GameplayClock(game.whiteClockMs, game.blackClockMs, Some(White), observedAt),
                            startedVersion, game.initialFen))
      else None;
    var ended :=
      match terminal
      case None => None
      case Some(outcome) =>
        Some(EndedGame(
          clocks, evaluation.applied.fenAfter, resultVersion, evaluation.pgn, outcome.result, outcome.termination));
    var submission := MoveSubmission(accepted, false, ended, started, (agg.white.guest, agg.black.guest));
    var row := game.(
      blackClockMs := clock.blackMs,
      currentFen := evaluation.applied.fenAfter,
      endedAt := if terminal.None? then game.endedAt else Some(observedAt),
      result := if terminal.None? then game.result else Some(terminal.value.result),
      termination := if terminal.None? then game.termination else Some(terminal.value.termination),
      pgn := evaluation.pgn,
      startedAt := if game.status.Ready? then Some(observedAt) else game.startedAt,
      status :=
        if terminal.Some? then terminal.value.status else if game.status.Ready? then InProgress else game.status,
      turnColor := nextTurn,
      turnStartedAt := if terminal.None? then Some(observedAt) else None,
      version := resultVersion,
      whiteClockMs := clock.whiteMs);
    var move := MoveRow(
      evaluation.applied.plyNumber, input.clientMoveId, input.guest, mover, evaluation.applied.san,
      evaluation.applied.uci, evaluation.applied.fenBefore, evaluation.applied.fenAfter, observedAt);
    Plan(None, Some(row), false, Some(move), terminal.Some?,
         Some((input.clientMoveId, MoveCommand(input.guest, submission, resultVersion))), Moved(submission))
  }

  function PlanEvaluatedMove(
    rules: Rules, agg: Aggregate, input: SubmitMove, mover: Color, clock: Clock, observedAt: int): Plan
  {
    var version := Some(agg.game.version);
    match Evaluate(rules, agg.game.currentFen, agg.Ucis(), agg.game.initialFen, input.move)
    case Err(IllegalMove) => ReadOnly(Rejected(MoveIllegal, version))
    case Err(_) => ReadOnly(Rejected(GameStateCorrupt, version))
    case Ok(evaluation) =>
      if evaluation.applied.color != mover then ReadOnly(Rejected(GameStateCorrupt, version))
      else if clock.whiteMs > MAX_INT4 || clock.blackMs > MAX_INT4 then ReadOnly(TransactionFailed)
      else
        match evaluation.gameOver
        case NotOver => PlanAcceptedMove(agg, input, mover, clock, observedAt, evaluation, None)
        case Over(reason, winner) =>
          match DeriveTerminalOutcome(BoardEvent(reason, winner))
          case Err(_) => ReadOnly(TransactionFailed)
          case Ok(outcome) =>
            if !agg.game.status.Ready? && EndsBeforeStart(agg.game, observedAt) then ReadOnly(TransactionFailed)
            else PlanAcceptedMove(agg, input, mover, clock, observedAt, evaluation, Some(outcome))
  }

  function PlanSubmit(rules: Rules, agg: Aggregate, input: SubmitMove, us: nat): Plan {
    match LockGameClock(agg.game, us)
    case None => ReadOnly(TransactionFailed)
    case Some(locked) =>
      var version := Some(agg.game.version);
      match agg.ColorOf(input.guest)
      case None => ReadOnly(Rejected(NotAPlayer, version))
      case Some(color) =>
        if input.clientMoveId in agg.commands then
          ReadOnly(ReplayMove(agg.commands[input.clientMoveId], input.guest))
        else if agg.game.status.Terminal() then ReadOnly(Rejected(GameAlreadyEnded, version))
        else if !agg.game.status.InProgress? && !agg.game.status.Ready? then
          ReadOnly(Rejected(GameUnavailable, version))
        else if agg.game.turnColor != color then ReadOnly(Rejected(NotYourTurn, version))
        else if input.expectedVersion != agg.game.version then ReadOnly(Rejected(StaleGameVersion, version))
        else if !ContiguousHistory(agg.moves) then ReadOnly(Rejected(GameStateCorrupt, version))
        else
          match MoveAdmission(agg.game, color, locked.observedAt)
          case Err(_) => ReadOnly(Rejected(GameStateCorrupt, version))
          case Ok(FlagFall(_, _, _)) => ReadOnly(Rejected(ClockExpired, version))
          case Ok(Accepted(clock, _)) => PlanEvaluatedMove(rules, agg, input, color, clock, locked.observedAt)
  }

  // ----- one transaction on one game -----

  function PlanFor(rules: Rules, agg: Aggregate, request: Request, us: nat): Plan {
    match request
    case MarkReady(guest, expectedVersion, observedAt) => PlanMarkReady(agg, guest, expectedVersion, observedAt)
    case StartIfReady => PlanStart(agg, us)
    case Submit(input) => PlanSubmit(rules, agg, input, us)
    case ResignRequest(resign) => PlanResign(agg, resign, us)
    case TerminateForReset(guest) => PlanReset(agg, guest, us)
    case MarkDisconnected(guest, graceMs) => PlanDisconnected(agg, guest, graceMs, us)
    case MarkReconnected(guest) => PlanReconnected(agg, guest, us)
    case AdjudicateTimeout => PlanTimeout(agg, us)
    case AdjudicateNoShow => PlanNoShow(agg, us)
    case AdjudicateAbandonment(absent) => PlanAbandonment(agg, absent, us)
  }

  function Apply(rules: Rules, agg: Aggregate, request: Request, us: nat): Aggregate {
    Execute(agg, PlanFor(rules, agg, request, us))
  }

  function Answer(rules: Rules, agg: Aggregate, request: Request, us: nat): Response {
    PlanFor(rules, agg, request, us).response
  }
}
