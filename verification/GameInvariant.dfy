/** What is true of one game's rows in every reachable state, and the proof that every
    transaction keeps it. */
module GameInvariant {
  import opened Domain
  import opened GameClock
  import opened ChessEngine
  import opened GameRows

  // ----- status, outcome and nullable columns -----

  predicate RowOk(game: GameRow) {
    && !game.status.Created?
    && game.result.Some? == game.termination.Some? == game.endedAt.Some? == game.status.Terminal()
    && (game.status.Terminal() ==> CoherentOutcome(game.status, game.termination.value, game.result.value))
    && game.turnStartedAt.Some? == game.status.Running()
    && (game.status.Running() ==> game.startedAt.Some?)
    && (game.status.WaitingForPlayers? || game.status.Ready? ==> game.startedAt.None?)
    && (game.endedAt.Some? ==> !EndsBeforeStart(game, game.endedAt.value))
    && game.joinDeadlineAt.Some?
    && game.initialFen != "" && game.currentFen != ""
    && 0 < game.timeInitialMs <= MAX_INT4 && 0 <= game.incrementMs <= MAX_INT4
  }

  // ----- players and disconnects -----

  predicate GraceOk(player: PlayerRow) {
    && player.disconnectedAt.Some? == player.graceEndsAt.Some?
    && (player.graceEndsAt.Some? ==> player.graceEndsAt.value >= player.disconnectedAt.value)
  }

  predicate PlayersOk(agg: Aggregate) {
    && agg.white.guest != agg.black.guest
    && GraceOk(agg.white) && GraceOk(agg.black)
    && (agg.game.status.Reconnecting? <==> agg.white.disconnectedAt.Some? || agg.black.disconnectedAt.Some?)
    && agg.game.reconnectDeadlineAt == Earliest(agg.white.graceEndsAt, agg.black.graceEndsAt)
    && (agg.game.status.WaitingForPlayers? ==> !(agg.white.joinedAt.Some? && agg.black.joinedAt.Some?))
    && (agg.game.status.Ready? || agg.game.status.Running() ==> agg.white.joinedAt.Some? && agg.black.joinedAt.Some?)
  }

  // ----- clocks -----

  function ColorAt(index: nat): Color { if index % 2 == 0 then White else Black }

  /** How many of the first n moves a side has made. */
  function MovesBy(color: Color, n: nat): nat { if color.White? then (n + 1) / 2 else n / 2 }

  /** When the turn after these moves began. */
  function TurnStart(startedAt: int, moves: seq<MoveRow>): int {
    if moves == [] then startedAt else moves[|moves| - 1].receivedAt
  }

  /** The thinking time a side has used, each turn counted as never negative. */
  function Spent(color: Color, startedAt: int, moves: seq<MoveRow>): (spent: nat) {
    if moves == [] then 0
    else
      var front := moves[..|moves| - 1];
      Spent(color, startedAt, front)
      + if ColorAt(|front|) == color then Elapsed(TurnStart(startedAt, front), moves[|front|].receivedAt) else 0
  }

  /** The clock a side must show after these moves. */
  function ClockAfter(
    color: Color, initialMs: int, incrementMs: int, startedAt: Option<int>, moves: seq<MoveRow>): int
  {
    initialMs + MovesBy(color, |moves|) * incrementMs
    - if startedAt.Some? then Spent(color, startedAt.value, moves) else 0
  }

  predicate EndedOnBoard(game: GameRow) {
    game.termination.Some? && (game.termination.value.Checkmate? || game.termination.value.BoardDraw())
  }

  /** Both clocks show exactly what was granted less what was used. */
  predicate ClocksAccounted(game: GameRow, moves: seq<MoveRow>) {
    && game.whiteClockMs == ClockAfter(White, game.timeInitialMs, game.incrementMs, game.startedAt, moves)
    && game.blackClockMs == ClockAfter(Black, game.timeInitialMs, game.incrementMs, game.startedAt, moves)
  }

  predicate ClocksOk(game: GameRow, moves: seq<MoveRow>) {
    && (moves != [] ==> game.startedAt.Some?)
    && (game.status.WaitingForPlayers? || game.status.Ready? ==> moves == [])
    && (game.status.Running() && game.startedAt.Some? ==>
          game.turnStartedAt == Some(TurnStart(game.startedAt.value, moves)))
    && 0 <= game.whiteClockMs <= MAX_INT4 && 0 <= game.blackClockMs <= MAX_INT4
    && (!game.status.Terminal() ==> game.whiteClockMs >= 1 && game.blackClockMs >= 1)
    && (!game.status.Terminal() || EndedOnBoard(game) ==> ClocksAccounted(game, moves))
  }

  // ----- the move log -----

  /** Every move follows from the previous ones: ply, colour, player, positions, and replayability. */
  ghost predicate LogOk(rules: Rules, initialFen: string, guests: (GuestId, GuestId), moves: seq<MoveRow>) {
    if moves == [] then
      && Replay(rules, initialFen, []).Ok?
      && rules.turn(Replay(rules, initialFen, []).value).White?
    else
      var front := moves[..|moves| - 1];
      var last := moves[|moves| - 1];
      var before := Replay(rules, initialFen, UciList(front));
      var after := Replay(rules, initialFen, UciList(moves));
      && LogOk(rules, initialFen, guests, front)
      && last.ply == |moves|
      && last.color == ColorAt(|front|)
      && last.guest == (if last.color.White? then guests.0 else guests.1)
      && IsUci(last.uci)
      && before.Ok? && after.Ok?
      && last.fenBefore == rules.fen(before.value)
      && last.fenAfter == rules.fen(after.value)
      && rules.turn(before.value) == last.color
      && rules.turn(after.value) == ColorAt(|moves|)
  }

  /** The game row agrees with a replayed position: fen, side to move, and whether the board has ended. */
  predicate PositionFits(rules: Rules, game: GameRow, plies: nat, p: Position) {
    && rules.fen(p) == game.currentFen
    && rules.turn(p) == game.turnColor == ColorAt(plies)
    && (EndedOnBoard(game) ==>
          plies > 0 && GameOverAt(rules, p).Over? && GameOverAt(rules, p).reason == game.termination.value)
    && (plies > 0 && !EndedOnBoard(game) ==> GameOverAt(rules, p).NotOver?)
  }

  /** The game row agrees with the position its log replays to. */
  ghost predicate PositionOk(rules: Rules, game: GameRow, moves: seq<MoveRow>) {
    var current := Replay(rules, game.initialFen, UciList(moves));
    current.Ok? && PositionFits(rules, game, |moves|, current.value)
  }

  // ----- commands -----

  /** An acknowledgement repeats its move row. */
  predicate MoveAcknowledged(row: MoveRow, event: EventId, guest: GuestId, accepted: AcceptedMove) {
    && row.clientMoveId == event == accepted.clientMoveId
    && row.guest == guest
    && row.uci == accepted.uci && row.fenAfter == accepted.fenAfter && row.san == accepted.san
  }

  predicate MoveCommandOk(agg: Aggregate, event: EventId, c: Command)
    requires c.MoveCommand?
  {
    var sub := c.moved;
    var ply := sub.accepted.ply;
    && MoveSchema(sub) && !sub.duplicate
    && 1 <= ply <= |agg.moves|
    && MoveAcknowledged(agg.moves[ply - 1], event, c.guest, sub.accepted)
    && c.resultVersion == sub.accepted.gameVersion <= agg.game.version
    && sub.guests == (agg.white.guest, agg.black.guest)
    && (sub.ended.Some? <==> ply == |agg.moves| && EndedOnBoard(agg.game))
    && (sub.ended.Some? ==> StoredEnding(agg.game, sub.ended.value))
  }

  /** A stored ending repeats the game row. */
  predicate StoredEnding(game: GameRow, ended: EndedGame) {
    && game.status.Terminal()
    && ended.gameVersion == game.version
    && game.result == Some(ended.result) && game.termination == Some(ended.termination)
    && ended.finalFen == game.currentFen
    && ended.clocks.whiteMs == game.whiteClockMs && ended.clocks.blackMs == game.blackClockMs
    && game.endedAt == Some(ended.clocks.observedAt)
    && ended.clocks.running.None?
  }

  predicate ResignCommandOk(agg: Aggregate, c: Command)
    requires c.ResignCommand?
  {
    && TerminalSchema(c.ended) && !c.ended.duplicate
    && c.resultVersion == c.ended.ended.gameVersion
    && agg.ColorOf(c.guest).Some?
    && c.ended.guests == (agg.white.guest, agg.black.guest)
    && agg.game.termination == Some(Resignation)
    && StoredEnding(agg.game, c.ended.ended)
    && ResultMatchesWinner(agg.game.result.value, Some(agg.ColorOf(c.guest).value.Opposite()))
  }

  predicate CommandOk(agg: Aggregate, event: EventId, c: Command) {
    if c.MoveCommand? then MoveCommandOk(agg, event, c) else ResignCommandOk(agg, c)
  }

  /** A move row has its command, found under its client id. */
  predicate MoveRecorded(agg: Aggregate, index: nat)
    requires index < |agg.moves|
  {
    var id := agg.moves[index].clientMoveId;
    && id in agg.commands
    && agg.commands[id].MoveCommand?
    && agg.commands[id].moved.accepted.ply == index + 1
  }

  predicate IsResign(agg: Aggregate, event: EventId) {
    event in agg.commands && agg.commands[event].ResignCommand?
  }

  ghost predicate CommandsOk(agg: Aggregate) {
    && (forall e :: e in agg.commands ==> CommandOk(agg, e, agg.commands[e]))
    && (forall i :: 0 <= i < |agg.moves| ==> MoveRecorded(agg, i))
    && (forall e, f :: IsResign(agg, e) && IsResign(agg, f) ==> e == f)
    && (agg.game.termination == Some(Resignation) ==> exists e :: IsResign(agg, e))
  }

  ghost predicate AggOk(rules: Rules, agg: Aggregate) {
    && RowOk(agg.game)
    && PlayersOk(agg)
    && ClocksOk(agg.game, agg.moves)
    && LogOk(rules, agg.game.initialFen, (agg.white.guest, agg.black.guest), agg.moves)
    && PositionOk(rules, agg.game, agg.moves)
    && CommandsOk(agg)
  }

  // ----- a fresh game -----

  function FreshAggregate(
    rules: Rules, id: GameId, matchId: MatchId, white: GuestId, black: GuestId,
    initialMs: int, incrementMs: int, joinDeadlineAt: int): Aggregate
  {
    var start := StartOf(rules.defaultFen);
    Aggregate(
      GameRow(id, matchId, WaitingForPlayers, rules.fen(start), rules.fen(start), White, PgnAt(rules, start), 0,
              None, None, initialMs, incrementMs, initialMs, initialMs, None, Some(joinDeadlineAt), None, None, None),
      PlayerRow(white, None, None, None, None),
      PlayerRow(black, None, None, None, None),
      [],
      map[])
  }

  lemma FreshAggregateOk(
    rules: Rules, id: GameId, matchId: MatchId, white: GuestId, black: GuestId,
    initialMs: int, incrementMs: int, joinDeadlineAt: int)
    requires rules.Faithful() && white != black
    requires 0 < initialMs <= MAX_INT4 && 0 <= incrementMs <= MAX_INT4
    ensures AggOk(rules, FreshAggregate(rules, id, matchId, white, black, initialMs, incrementMs, joinDeadlineAt))
  {
    var agg := FreshAggregate(rules, id, matchId, white, black, initialMs, incrementMs, joinDeadlineAt);
    assert UciList(agg.moves) == [];
  }

  // ----- the log, read at any point -----

  lemma {:induction false} LogPrefix(
    rules: Rules, initialFen: string, guests: (GuestId, GuestId), moves: seq<MoveRow>, k: nat)
    requires LogOk(rules, initialFen, guests, moves) && k <= |moves|
    ensures LogOk(rules, initialFen, guests, moves[..k])
    decreases |moves|
  {
    if k == |moves| {
      assert moves[..k] == moves;
    } else {
      var front := moves[..|moves| - 1];
      assert front[..k] == moves[..k];
      LogPrefix(rules, initialFen, guests, front, k);
    }
  }

  /** What the log says about its i-th move. */
  lemma LogEntry(rules: Rules, initialFen: string, guests: (GuestId, GuestId), moves: seq<MoveRow>, i: nat)
    requires LogOk(rules, initialFen, guests, moves) && i < |moves|
    ensures moves[i].ply == i + 1
    ensures moves[i].color == ColorAt(i)
    ensures moves[i].guest == (if moves[i].color.White? then guests.0 else guests.1)
    ensures IsUci(moves[i].uci)
    ensures var before := Replay(rules, initialFen, UciList(moves[..i]));
            var after := Replay(rules, initialFen, UciList(moves[..i + 1]));
            && before.Ok? && after.Ok?
            && moves[i].fenBefore == rules.fen(before.value) && moves[i].fenAfter == rules.fen(after.value)
  {
    LogPrefix(rules, initialFen, guests, moves, i + 1);
    var upto := moves[..i + 1];
    assert upto[..|upto| - 1] == moves[..i];
  }

  lemma LogIsContiguous(rules: Rules, initialFen: string, guests: (GuestId, GuestId), moves: seq<MoveRow>)
    requires LogOk(rules, initialFen, guests, moves)
    ensures ContiguousHistory(moves)
  {
    forall i | 0 <= i < |moves|
      ensures moves[i].ply == i + 1
    {
      LogEntry(rules, initialFen, guests, moves, i);
    }
  }

  lemma LogExtends(rules: Rules, initialFen: string, guests: (GuestId, GuestId), moves: seq<MoveRow>, row: MoveRow)
    requires LogOk(rules, initialFen, guests, moves)
    requires row.ply == |moves| + 1 && row.color == ColorAt(|moves|) && IsUci(row.uci)
    requires row.guest == (if row.color.White? then guests.0 else guests.1)
    requires var before := Replay(rules, initialFen, UciList(moves));
             var after := Replay(rules, initialFen, UciList(moves) + [row.uci]);
             && before.Ok? && after.Ok?
             && row.fenBefore == rules.fen(before.value) && row.fenAfter == rules.fen(after.value)
             && rules.turn(before.value) == row.color && rules.turn(after.value) == ColorAt(|moves| + 1)
    ensures UciList(moves + [row]) == UciList(moves) + [row.uci]
    ensures LogOk(rules, initialFen, guests, moves + [row])
  {
    var all := moves + [row];
    assert all[..|all| - 1] == moves;
    assert UciList(all) == UciList(moves) + [row.uci];
  }

  // ----- commands survive what does not touch them -----

  /** Steps that leave moves, commands and guests alone and do not end the game keep the commands. */
  lemma CommandsSurvive(agg: Aggregate, after: Aggregate)
    requires CommandsOk(agg)
    requires !agg.game.status.Terminal() && !after.game.status.Terminal()
    requires RowOk(agg.game) && RowOk(after.game)
    requires after.moves == agg.moves && after.commands == agg.commands
    requires after.white.guest == agg.white.guest && after.black.guest == agg.black.guest
    requires after.game.version >= agg.game.version
    ensures CommandsOk(after)
  {
    forall e | e in after.commands
      ensures CommandOk(after, e, after.commands[e])
    {
      assert CommandOk(agg, e, agg.commands[e]);
    }
    forall i | 0 <= i < |after.moves|
      ensures MoveRecorded(after, i)
    {
      assert MoveRecorded(agg, i);
    }
  }

  // ----- steps that neither move nor end -----

  /** Only readiness, start and disconnect columns differ. */
  predicate QuietStep(agg: Aggregate, after: Aggregate) {
    && after.moves == agg.moves && after.commands == agg.commands
    && after.white.guest == agg.white.guest && after.black.guest == agg.black.guest
    && !agg.game.status.Terminal() && !after.game.status.Terminal()
    && after.game.version >= agg.game.version
    && SameBoard(agg.game, after.game)
    && (after.game.startedAt == agg.game.startedAt || agg.game.status.Ready?)
    && (agg.game.status.Running() ==> after.game.turnStartedAt == agg.game.turnStartedAt)
    && (!agg.game.status.Running() && after.game.status.Running() ==> after.game.turnStartedAt == after.game.startedAt)
    && (after.game.status.WaitingForPlayers? || after.game.status.Ready? ==> !agg.game.status.Running())
    && RowOk(after.game) && PlayersOk(after)
  }

  /** Position, time control and clocks are the same. */
  predicate SameBoard(game: GameRow, after: GameRow) {
    && after.initialFen == game.initialFen && after.currentFen == game.currentFen
    && after.turnColor == game.turnColor
    && after.timeInitialMs == game.timeInitialMs && after.incrementMs == game.incrementMs
    && after.whiteClockMs == game.whiteClockMs && after.blackClockMs == game.blackClockMs
  }

  predicate QuietPlan(agg: Aggregate, plan: Plan) {
    && QuietStep(agg, Execute(agg, plan))
    && plan.move.None? && plan.command.None? && !plan.clearPlayers && !plan.dropAssignments
    && !plan.response.Moved? && !plan.response.Ended?
    && (match plan.game
        case None => true
        case Some(row) =>
          && row.version == agg.game.version + 1
          && row.id == agg.game.id && row.matchId == agg.game.matchId && row.pgn == agg.game.pgn)
  }

  lemma QuietStepKeeps(rules: Rules, agg: Aggregate, after: Aggregate)
    requires AggOk(rules, agg)
    requires QuietStep(agg, after)
    ensures AggOk(rules, after)
  {
    CommandsSurvive(agg, after);
  }

  lemma MarkReadyIsQuiet(agg: Aggregate, guest: GuestId, expectedVersion: int, observedAt: int)
    requires RowOk(agg.game) && PlayersOk(agg)
    ensures var plan := PlanMarkReady(agg, guest, expectedVersion, observedAt);
            plan == ReadOnly(plan.response) || QuietPlan(agg, plan)
  {
  }

  lemma StartIsQuiet(agg: Aggregate, us: nat)
    requires RowOk(agg.game) && PlayersOk(agg)
    ensures var plan := PlanStart(agg, us);
            plan == ReadOnly(plan.response) || QuietPlan(agg, plan)
  {
  }

  lemma DisconnectedIsQuiet(agg: Aggregate, guest: GuestId, graceMs: nat, us: nat)
    requires RowOk(agg.game) && PlayersOk(agg)
    ensures var plan := PlanDisconnected(agg, guest, graceMs, us);
            plan == ReadOnly(plan.response) || QuietPlan(agg, plan)
  {
  }

  lemma ReconnectedIsQuiet(agg: Aggregate, guest: GuestId, us: nat)
    requires RowOk(agg.game) && PlayersOk(agg)
    ensures var plan := PlanReconnected(agg, guest, us);
            plan == ReadOnly(plan.response) || QuietPlan(agg, plan)
  {
  }

  // ----- endings off the board -----

  /** A running game's locked projection: in range, the idle side untouched. */
  lemma LockedProjection(agg: Aggregate, us: nat)
    requires RowOk(agg.game) && ClocksOk(agg.game, agg.moves)
    requires LockGameClock(agg.game, us).Some?
    ensures var locked := LockGameClock(agg.game, us).value;
            && 0 <= locked.whiteClockMs <= MAX_INT4 && 0 <= locked.blackClockMs <= MAX_INT4
            && locked.status == agg.game.status && locked.turnColor == agg.game.turnColor
            && locked.version == agg.game.version && locked.observedAt == Millis(us) >= 0
            && (!agg.game.status.Running() ==>
                  locked.whiteClockMs == agg.game.whiteClockMs && locked.blackClockMs == agg.game.blackClockMs)
  {
  }

  /** Ending a live game off the board keeps every part of the invariant. */
  lemma FinalizeKeeps(
    rules: Rules, agg: Aggregate, us: nat, event: TerminalEvent, outcome: TerminalOutcome,
    resignation: Option<(EventId, GuestId)>)
    requires AggOk(rules, agg) && !agg.game.status.Terminal()
    requires LockGameClock(agg.game, us).Some?
    requires !event.BoardEvent? && DeriveTerminalOutcome(event) == Ok(outcome)
    requires !EndsBeforeStart(agg.game, Millis(us))
    requires resignation.Some? == event.ResignationEvent?
    requires resignation.Some? ==>
               resignation.value.0 !in agg.commands && agg.ColorOf(resignation.value.1) == Some(event.loser)
    ensures AggOk(rules, Execute(agg, PlanFinalize(agg, LockGameClock(agg.game, us).value, outcome, resignation)))
  {
    var locked := LockGameClock(agg.game, us).value;
    var after := Execute(agg, PlanFinalize(agg, locked, outcome, resignation));
    LockedProjection(agg, us);
    OffBoardOutcome(event, outcome);
    FinalizeKeepsRows(agg, after, locked, outcome, resignation);
    FinalizeKeepsCommands(agg, after, locked, outcome, resignation);
  }

  lemma OffBoardOutcome(event: TerminalEvent, outcome: TerminalOutcome)
    requires !event.BoardEvent? && DeriveTerminalOutcome(event) == Ok(outcome)
    ensures outcome.status.Terminal() && CoherentOutcome(outcome.status, outcome.termination, outcome.result)
    ensures !outcome.termination.Checkmate? && !outcome.termination.BoardDraw()
    ensures event.ResignationEvent? <==> outcome.termination.Resignation?
    ensures event.ResignationEvent? ==> ResultMatchesWinner(outcome.result, Some(event.loser.Opposite()))
  {
    DerivationIsCoherent(event);
  }

  lemma FinalizeKeepsRows(
    agg: Aggregate, after: Aggregate, locked: LockedClock, outcome: TerminalOutcome,
    resignation: Option<(EventId, GuestId)>)
    requires RowOk(agg.game) && PlayersOk(agg) && ClocksOk(agg.game, agg.moves) && !agg.game.status.Terminal()
    requires after == Execute(agg, PlanFinalize(agg, locked, outcome, resignation))
    requires !EndsBeforeStart(agg.game, locked.observedAt)
    requires outcome.status.Terminal() && CoherentOutcome(outcome.status, outcome.termination, outcome.result)
    requires !outcome.termination.Checkmate? && !outcome.termination.BoardDraw()
    requires 0 <= locked.whiteClockMs <= MAX_INT4 && 0 <= locked.blackClockMs <= MAX_INT4
    ensures RowOk(after.game) && PlayersOk(after) && ClocksOk(after.game, after.moves)
    ensures !EndedOnBoard(after.game)
  {
  }

  lemma FinalizeKeepsCommands(
    agg: Aggregate, after: Aggregate, locked: LockedClock, outcome: TerminalOutcome,
    resignation: Option<(EventId, GuestId)>)
    requires CommandsOk(agg) && RowOk(agg.game) && !agg.game.status.Terminal()
    requires outcome.status.Terminal()
    requires locked.whiteClockMs >= 0 && locked.blackClockMs >= 0 && locked.observedAt >= 0
    requires after == Execute(agg, PlanFinalize(agg, locked, outcome, resignation))
    requires !EndedOnBoard(after.game)
    requires resignation.Some? <==> outcome.termination.Resignation?
    requires resignation.Some? ==>
               && resignation.value.0 !in agg.commands
               && agg.ColorOf(resignation.value.1).Some?
               && ResultMatchesWinner(outcome.result, Some(agg.ColorOf(resignation.value.1).value.Opposite()))
    ensures CommandsOk(after)
  {
    forall e | e in after.commands
      ensures CommandOk(after, e, after.commands[e])
    {
      if e in agg.commands {
        assert CommandOk(agg, e, agg.commands[e]);
      }
    }
    forall i | 0 <= i < |after.moves|
      ensures MoveRecorded(after, i)
    {
      assert MoveRecorded(agg, i);
    }
    forall e, f | IsResign(after, e) && IsResign(after, f)
      ensures e == f
    {
      assert e in agg.commands ==> CommandOk(agg, e, agg.commands[e]);
      assert f in agg.commands ==> CommandOk(agg, f, agg.commands[f]);
    }
    if resignation.Some? {
      assert IsResign(after, resignation.value.0);
    }
  }

  /** The plan either only reads, or ends a live game by a derived off-board event. */
  predicate EndingPlan(
    agg: Aggregate, us: nat, plan: Plan, event: TerminalEvent, resignation: Option<(EventId, GuestId)>)
  {
    || plan == ReadOnly(plan.response)
    || (&& !agg.game.status.Terminal()
        && LockGameClock(agg.game, us).Some?
        && !event.BoardEvent? && DeriveTerminalOutcome(event).Ok?
        && !EndsBeforeStart(agg.game, Millis(us))
        && resignation.Some? == event.ResignationEvent?
        && (resignation.Some? ==>
              resignation.value.0 !in agg.commands && agg.ColorOf(resignation.value.1) == Some(event.loser))
        && plan ==
           PlanFinalize(agg, LockGameClock(agg.game, us).value, DeriveTerminalOutcome(event).value, resignation))
  }

  lemma EndingPlanKeeps(
    rules: Rules, agg: Aggregate, us: nat, plan: Plan, event: TerminalEvent, resignation: Option<(EventId, GuestId)>)
    requires AggOk(rules, agg)
    requires EndingPlan(agg, us, plan, event, resignation)
    ensures AggOk(rules, Execute(agg, plan))
  {
    if plan != ReadOnly(plan.response) {
      FinalizeKeeps(rules, agg, us, event, DeriveTerminalOutcome(event).value, resignation);
    } else {
      assert Execute(agg, plan) == agg;
    }
  }

  /** The event a request ends a game by, when it does. */
  function EndingEvent(agg: Aggregate, request: Request, us: nat): TerminalEvent {
    var side := if LockGameClock(agg.game, us).Some? then LockGameClock(agg.game, us).value.turnColor else White;
    match request
    case ResignRequest(input) => ResignationEvent(agg.ColorOf(input.guest).GetOr(White))
    case TerminateForReset(guest) => AbandonmentEvent([agg.ColorOf(guest).GetOr(White)])
    case AdjudicateNoShow => NoShowEvent(JoinedColors(agg))
    case AdjudicateAbandonment(absent) => AbandonmentEvent(AbsentColors(agg, absent))
    case _ => TimeoutEvent(side)
  }

  function EndingCommand(request: Request): Option<(EventId, GuestId)> {
    if request.ResignRequest? then Some((request.resign.eventId, request.resign.guest)) else None
  }

  predicate EndsOffBoard(request: Request) {
    || request.ResignRequest? || request.TerminateForReset? || request.AdjudicateTimeout?
    || request.AdjudicateNoShow? || request.AdjudicateAbandonment?
  }

  lemma EndingShape(rules: Rules, agg: Aggregate, request: Request, us: nat)
    requires EndsOffBoard(request)
    ensures EndingPlan(agg, us, PlanFor(rules, agg, request, us), EndingEvent(agg, request, us), EndingCommand(request))
  {
    match request
    case ResignRequest(input) => ResignShape(agg, input, us);
    case TerminateForReset(guest) => ResetShape(agg, guest, us);
    case AdjudicateTimeout => TimeoutShape(agg, us);
    case AdjudicateNoShow => NoShowShape(agg, us);
    case AdjudicateAbandonment(absent) => AbandonmentShape(agg, absent, us);
  }

  /** Finalizing with an event either writes what it derives or fails. */
  lemma OutcomeShape(
    agg: Aggregate, us: nat, event: TerminalEvent, resignation: Option<(EventId, GuestId)>)
    requires !agg.game.status.Terminal() && LockGameClock(agg.game, us).Some? && !event.BoardEvent?
    requires resignation.Some? == event.ResignationEvent?
    requires resignation.Some? ==>
               resignation.value.0 !in agg.commands && agg.ColorOf(resignation.value.1) == Some(event.loser)
    ensures EndingPlan(
              agg, us, PlanOutcome(agg, LockGameClock(agg.game, us).value, event, resignation), event, resignation)
  {
  }

  lemma ResignShape(agg: Aggregate, input: ResignGame, us: nat)
    ensures EndingPlan(agg, us, PlanResign(agg, input, us), ResignationEvent(agg.ColorOf(input.guest).GetOr(White)),
                       Some((input.eventId, input.guest)))
  {
  }

  lemma ResetShape(agg: Aggregate, guest: GuestId, us: nat)
    ensures EndingPlan(agg, us, PlanReset(agg, guest, us), AbandonmentEvent([agg.ColorOf(guest).GetOr(White)]), None)
  {
    if LockGameClock(agg.game, us).Some? && !agg.game.status.Terminal() && agg.ColorOf(guest).Some? {
      OutcomeShape(agg, us, AbandonmentEvent([agg.ColorOf(guest).value]), None);
    }
  }

  lemma TimeoutShape(agg: Aggregate, us: nat)
    ensures EndingPlan(
              agg, us, PlanTimeout(agg, us),
              TimeoutEvent(
                if LockGameClock(agg.game, us).Some? then LockGameClock(agg.game, us).value.turnColor else White),
              None)
  {
  }

  lemma NoShowShape(agg: Aggregate, us: nat)
    ensures EndingPlan(agg, us, PlanNoShow(agg, us), NoShowEvent(JoinedColors(agg)), None)
  {
    if LockGameClock(agg.game, us).Some? && !agg.game.status.Terminal() {
      OutcomeShape(agg, us, NoShowEvent(JoinedColors(agg)), None);
    }
  }

  lemma AbandonmentShape(agg: Aggregate, absent: seq<GuestId>, us: nat)
    ensures EndingPlan(
              agg, us, PlanAbandonment(agg, absent, us), AbandonmentEvent(AbsentColors(agg, absent)), None)
  {
    if LockGameClock(agg.game, us).Some? && !agg.game.status.Terminal() {
      OutcomeShape(agg, us, AbandonmentEvent(AbsentColors(agg, absent)), None);
    }
  }
}
