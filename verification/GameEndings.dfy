/** When each request ends a game, who then wins, and what disconnecting and reconnecting
    change: each in the game's own terms. */
module GameEndings {
  import opened Domain
  import opened GameClock
  import opened ChessEngine
  import opened GameRows
  import opened GameInvariant
  import opened GameHistory
  import opened GameDeadlines

  // ----- endings -----

  /** The request's own condition for ending the game. */
  predicate Warranted(agg: Aggregate, request: Request, at: int) {
    match request
    case ResignRequest(input) =>
      && agg.game.status.Running() && agg.ColorOf(input.guest).Some?
      && input.eventId !in agg.commands && input.expectedVersion == agg.game.version
    case TerminateForReset(guest) => !agg.game.status.Terminal() && agg.ColorOf(guest).Some?
    case AdjudicateTimeout =>
      && agg.game.status.Running() && agg.game.turnStartedAt.Some?
      && agg.game.turnStartedAt.value + agg.game.ClockOf(agg.game.turnColor) <= at
    case AdjudicateNoShow =>
      agg.game.status.WaitingForPlayers? && agg.game.joinDeadlineAt.Some? && agg.game.joinDeadlineAt.value <= at
    case AdjudicateAbandonment(absent) =>
      && agg.game.status.Reconnecting?
      && (agg.white.guest in absent ==> agg.white.disconnectedAt.Some?)
      && (agg.black.guest in absent ==> agg.black.disconnectedAt.Some?)
      && NamesSomeoneExpired(agg, absent, at)
    case _ => false
  }

  /** On a consistent game, each request that may end a game off the board ends it exactly when
      its own condition holds, the locking statement succeeds and the end is not before the start. */
  lemma EndsExactly(rules: Rules, agg: Aggregate, request: Request, us: nat)
    requires AggOk(rules, agg) && EndsOffBoard(request)
    ensures NewEnding(Answer(rules, agg, request, us)).Some? <==>
              && LockGameClock(agg.game, us).Some? && !EndsBeforeStart(agg.game, Millis(us))
              && Warranted(agg, request, Millis(us))
  {
    match request
    case ResignRequest(input) => ResignEndsExactly(agg, input, us);
    case TerminateForReset(guest) => ResetEndsExactly(agg, guest, us);
    case AdjudicateTimeout => TimeoutEndsExactly(agg, us);
    case AdjudicateNoShow => NoShowEndsExactly(agg, us);
    case AdjudicateAbandonment(absent) => AbandonmentEndsExactly(agg, absent, us);
  }

  lemma ResignEndsExactly(agg: Aggregate, input: ResignGame, us: nat)
    requires RowOk(agg.game)
    ensures NewEnding(PlanResign(agg, input, us).response).Some? <==>
              && LockGameClock(agg.game, us).Some? && !EndsBeforeStart(agg.game, Millis(us))
              && Warranted(agg, ResignRequest(input), Millis(us))
  {
  }

  lemma OneColor(color: Color)
    ensures UniqueColors([color]) == [color]
  {
  }

  lemma OneAbsentDerives(color: Color)
    ensures DeriveTerminalOutcome(AbandonmentEvent([color])) ==
            Ok(WinnerOutcome(color.Opposite(), Abandoned, Abandonment))
  {
    OneColor(color);
  }

  lemma ResetEndsExactly(agg: Aggregate, guest: GuestId, us: nat)
    requires RowOk(agg.game)
    ensures NewEnding(PlanReset(agg, guest, us).response).Some? <==>
              && LockGameClock(agg.game, us).Some? && !EndsBeforeStart(agg.game, Millis(us))
              && Warranted(agg, TerminateForReset(guest), Millis(us))
  {
    OneAbsentDerives(agg.ColorOf(guest).GetOr(White));
  }

  lemma TimeoutEndsExactly(agg: Aggregate, us: nat)
    requires RowOk(agg.game) && ClocksOk(agg.game, agg.moves)
    ensures NewEnding(PlanTimeout(agg, us).response).Some? <==>
              && LockGameClock(agg.game, us).Some? && !EndsBeforeStart(agg.game, Millis(us))
              && Warranted(agg, AdjudicateTimeout, Millis(us))
  {
    if agg.game.turnStartedAt.Some? {
      SqlElapsedIsMillisecondElapsed(agg.game.turnStartedAt.value, us);
    }
  }

  lemma NoShowEndsExactly(agg: Aggregate, us: nat)
    requires RowOk(agg.game) && PlayersOk(agg)
    ensures NewEnding(PlanNoShow(agg, us).response).Some? <==>
              && LockGameClock(agg.game, us).Some? && !EndsBeforeStart(agg.game, Millis(us))
              && Warranted(agg, AdjudicateNoShow, Millis(us))
  {
    if agg.game.status.WaitingForPlayers? {
      NoShowDerives(agg);
    }
  }

  function WinFor(color: Color): GameResult { if color.White? then WhiteWin else BlackWin }

  /** Why the game ended and for whom. */
  function Verdict(agg: Aggregate, request: Request): (Termination, GameResult) {
    match request
    case ResignRequest(input) => (Resignation, WinFor(agg.ColorOf(input.guest).GetOr(White).Opposite()))
    case TerminateForReset(guest) => (Abandonment, WinFor(agg.ColorOf(guest).GetOr(White).Opposite()))
    case AdjudicateTimeout => (Timeout, WinFor(agg.game.turnColor.Opposite()))
    case AdjudicateNoShow =>
      (NoShow, if agg.white.joinedAt.Some? then WhiteWin else if agg.black.joinedAt.Some? then BlackWin else Void)
    case AdjudicateAbandonment(absent) =>
      if agg.white.guest in absent && agg.black.guest in absent then (DoubleAbandon, Void)
      else (Abandonment, if agg.white.guest in absent then BlackWin else WhiteWin)
    case _ => (Timeout, Void)
  }

  /** The ending announced: its verdict, and the board and version it ended at. */
  predicate EndedWith(agg: Aggregate, response: Response, verdict: (Termination, GameResult)) {
    && NewEnding(response).Some?
    && var ended := NewEnding(response).value;
    && (ended.termination, ended.result) == verdict
    && ended.finalFen == agg.game.currentFen && ended.gameVersion == agg.game.version + 1
  }

  /** The resigning, resetting, overdue or absent side loses; a no-show is won by whoever joined.
      The final row says the same as the announcement. */
  lemma EndingNamesTheWinner(rules: Rules, agg: Aggregate, request: Request, us: nat)
    requires AggOk(rules, agg) && EndsOffBoard(request)
    requires NewEnding(Answer(rules, agg, request, us)).Some?
    ensures EndedWith(agg, Answer(rules, agg, request, us), Verdict(agg, request))
    ensures StoredEnding(Apply(rules, agg, request, us).game, NewEnding(Answer(rules, agg, request, us)).value)
  {
    StepGrows(rules, agg, request, us);
    match request
    case ResignRequest(input) => ResignVerdict(agg, input, us);
    case TerminateForReset(guest) => ResetVerdict(agg, guest, us);
    case AdjudicateTimeout => TimeoutVerdict(agg, us);
    case AdjudicateNoShow => NoShowVerdict(agg, us);
    case AdjudicateAbandonment(absent) => AbandonmentVerdict(agg, absent, us);
  }

  lemma ResignVerdict(agg: Aggregate, input: ResignGame, us: nat)
    requires NewEnding(PlanResign(agg, input, us).response).Some?
    ensures EndedWith(agg, PlanResign(agg, input, us).response, Verdict(agg, ResignRequest(input)))
  {
  }

  lemma ResetVerdict(agg: Aggregate, guest: GuestId, us: nat)
    requires NewEnding(PlanReset(agg, guest, us).response).Some?
    ensures EndedWith(agg, PlanReset(agg, guest, us).response, Verdict(agg, TerminateForReset(guest)))
  {
    OneAbsentDerives(agg.ColorOf(guest).GetOr(White));
  }

  lemma TimeoutVerdict(agg: Aggregate, us: nat)
    requires NewEnding(PlanTimeout(agg, us).response).Some?
    ensures EndedWith(agg, PlanTimeout(agg, us).response, Verdict(agg, AdjudicateTimeout))
  {
  }

  lemma NoShowVerdict(agg: Aggregate, us: nat)
    requires PlayersOk(agg) && NewEnding(PlanNoShow(agg, us).response).Some?
    ensures EndedWith(agg, PlanNoShow(agg, us).response, Verdict(agg, AdjudicateNoShow))
  {
    OneJoined(agg);
    OneColor(White);
    OneColor(Black);
  }

  lemma AbandonmentVerdict(agg: Aggregate, absent: seq<GuestId>, us: nat)
    requires NewEnding(PlanAbandonment(agg, absent, us).response).Some?
    ensures EndedWith(agg, PlanAbandonment(agg, absent, us).response, Verdict(agg, AdjudicateAbandonment(absent)))
  {
    AbsentColorsAre(agg, absent);
    AbandonmentDerives(agg, absent);
  }

  // ----- disconnecting and reconnecting -----

  /** A player's row and the game row as a disconnect leaves them; nothing about board or clocks changes. */
  lemma DisconnectEffects(agg: Aggregate, guest: GuestId, graceMs: nat, us: nat)
    requires RowOk(agg.game) && PlayersOk(agg) && PlanDisconnected(agg, guest, graceMs, us).response.PlayerAway?
    ensures var plan := PlanDisconnected(agg, guest, graceMs, us);
            var after := Execute(agg, plan);
            var color := agg.ColorOf(guest).value;
            var other := agg.Player(color.Opposite());
            && after.Player(color) == agg.Player(color).(
                 connectedAt := None, disconnectedAt := Some(Millis(us)), graceEndsAt := Some(Millis(us) + graceMs))
            && after.Player(color.Opposite()) == other
            && after.game == agg.game.(
                 status := Reconnecting, version := agg.game.version + 1,
                 reconnectDeadlineAt := Earliest(agg.game.reconnectDeadlineAt, Some(Millis(us) + graceMs)))
            && after.moves == agg.moves && after.commands == agg.commands
            && plan.response == PlayerAway(color, agg.game.version + 1, Millis(us) + graceMs)
  {
  }

  /** Coming back undoes going away: from any running game, whatever the other player's state,
      disconnect then reconnect restores every row but for two versions and the player's new
      connection time.  The clocks have run on: nothing about them was written. */
  lemma ReconnectUndoesDisconnect(
    rules: Rules, agg: Aggregate, guest: GuestId, graceMs: nat, us: nat, later: nat)
    requires AggOk(rules, agg)
    requires Answer(rules, agg, MarkDisconnected(guest, graceMs), us).PlayerAway?
    requires LockGameClock(Apply(rules, agg, MarkDisconnected(guest, graceMs), us).game, later).Some?
    ensures var away := Apply(rules, agg, MarkDisconnected(guest, graceMs), us);
            var back := Apply(rules, away, MarkReconnected(guest), later);
            var color := agg.ColorOf(guest).value;
            && Answer(rules, away, MarkReconnected(guest), later) == PlayerBack(color, agg.game.version + 2)
            && back == agg.(game := agg.game.(version := agg.game.version + 2))
                          .WithPlayer(color, agg.Player(color).(connectedAt := Some(Millis(later))))
  {
    DisconnectEffects(agg, guest, graceMs, us);
    BackFromAway(agg, Apply(rules, agg, MarkDisconnected(guest, graceMs), us), guest, graceMs, us, later);
  }

  lemma BackFromAway(agg: Aggregate, away: Aggregate, guest: GuestId, graceMs: nat, us: nat, later: nat)
    requires RowOk(agg.game) && PlayersOk(agg) && agg.ColorOf(guest).Some? && agg.game.status.Running()
    requires LockGameClock(away.game, later).Some?
    requires var color := agg.ColorOf(guest).value;
             && agg.Player(color).disconnectedAt.None?
             && away == agg.(game := away.game).WithPlayer(color, agg.Player(color).(
                  connectedAt := None, disconnectedAt := Some(Millis(us)), graceEndsAt := Some(Millis(us) + graceMs)))
             && away.game == agg.game.(
                  status := Reconnecting, version := agg.game.version + 1,
                  reconnectDeadlineAt := away.game.reconnectDeadlineAt)
    ensures var plan := PlanReconnected(away, guest, later);
            var color := agg.ColorOf(guest).value;
            && plan.response == PlayerBack(color, agg.game.version + 2)
            && Execute(away, plan) == agg.(game := agg.game.(version := agg.game.version + 2))
                                         .WithPlayer(color, agg.Player(color).(connectedAt := Some(Millis(later))))
  {
  }
}
