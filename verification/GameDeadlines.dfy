/** Deadlines of one game: the scheduler's deadline, the due-games query, what adjudication
    then does, and the one way a due game can be impossible to end. */
module GameDeadlines {
  import opened Domain
  import opened GameClock
  import opened ChessEngine
  import opened GameRows
  import opened GameInvariant
  import opened GameHistory

  // ----- deadline and due query -----

  /** The earliest deadline that applies, as the scheduler is told it. */
  function FindDeadline(agg: Aggregate): Option<int> {
    var game := agg.game;
    var join := if game.status.WaitingForPlayers? then game.joinDeadlineAt else None;
    var flag :=
      if game.status.Running() && game.turnStartedAt.Some?
      then Some(game.turnStartedAt.value + game.ClockOf(game.turnColor))
      else None;
    var whiteGrace := if game.status.Reconnecting? then agg.white.graceEndsAt else None;
    var blackGrace := if game.status.Reconnecting? then agg.black.graceEndsAt else None;
    Earliest(Earliest(Earliest(join, flag), whiteGrace), blackGrace)
  }

  predicate JoinDue(agg: Aggregate, nowUs: nat) {
    agg.game.status.WaitingForPlayers? && agg.game.joinDeadlineAt.Some? && agg.game.joinDeadlineAt.value * 1000 <= nowUs
  }

  predicate ClockDue(agg: Aggregate, nowUs: nat) {
    && agg.game.status.Running() && agg.game.turnStartedAt.Some?
    && SqlClockDue(agg.game.ClockOf(agg.game.turnColor), agg.game.turnStartedAt.value, nowUs)
  }

  predicate GraceDue(agg: Aggregate, nowUs: nat) {
    && agg.game.status.Reconnecting?
    && ((agg.white.graceEndsAt.Some? && agg.white.graceEndsAt.value * 1000 <= nowUs)
        || (agg.black.graceEndsAt.Some? && agg.black.graceEndsAt.value * 1000 <= nowUs))
  }

  /** The WHERE clause of the due-games query. */
  predicate DueQuery(agg: Aggregate, nowUs: nat) {
    JoinDue(agg, nowUs) || ClockDue(agg, nowUs) || GraceDue(agg, nowUs)
  }

  /** The query selects exactly the games whose deadline has passed. */
  lemma DueExactlyWhenDeadlinePassed(agg: Aggregate, nowUs: nat)
    ensures DueQuery(agg, nowUs) <==> FindDeadline(agg).Some? && FindDeadline(agg).value <= Millis(nowUs)
  {
  }

  /** On consistent games a deadline exists exactly while waiting or running; READY has none. */
  lemma DeadlineExistsExactly(rules: Rules, agg: Aggregate)
    requires AggOk(rules, agg)
    ensures FindDeadline(agg).Some? <==> agg.game.status.WaitingForPlayers? || agg.game.status.Running()
  {
  }

  // ----- adjudication -----

  /** The first two transactions of adjudicating a game, run one after the other: no-show,
      then, if that ended nothing, timeout. */
  function AdjudicateJoinAndClock(rules: Rules, agg: Aggregate, us1: nat, us2: nat): Response {
    var noShow := Answer(rules, agg, AdjudicateNoShow, us1);
    if !noShow.NoEvent? then noShow
    else Answer(rules, Apply(rules, agg, AdjudicateNoShow, us1), AdjudicateTimeout, us2)
  }

  /** How long the running turn has lasted. */
  function TurnAge(game: GameRow, us: nat): int {
    if game.turnStartedAt.Some? then Millis(us) - game.turnStartedAt.value else 0
  }

  /** A game due by its join or clock deadline is ended by adjudication exactly when the
      running turn is at most 2147483647 ms old and the end is not before the start; otherwise
      the locking statement or the final update fails. */
  lemma DueGamesEndExactly(rules: Rules, agg: Aggregate, us: nat, us1: nat, us2: nat)
    requires AggOk(rules, agg) && us <= us1 <= us2
    requires JoinDue(agg, us) || ClockDue(agg, us)
    ensures var answer := AdjudicateJoinAndClock(rules, agg, us1, us2);
            if TurnAge(agg.game, us2) <= MAX_INT4 && !EndsBeforeStart(agg.game, Millis(us2))
            then NewEnding(answer).Some? else answer.TransactionFailed?
  {
    if agg.game.status.WaitingForPlayers? {
      WaitingEnds(agg, us, us1);
    } else {
      RunningEnds(agg, us, us1, us2);
    }
  }

  lemma WaitingEnds(agg: Aggregate, us: nat, us1: nat)
    requires RowOk(agg.game) && PlayersOk(agg) && JoinDue(agg, us) && us <= us1
    ensures NewEnding(PlanNoShow(agg, us1).response).Some?
  {
    NoShowDerives(agg);
  }

  lemma RunningEnds(agg: Aggregate, us: nat, us1: nat, us2: nat)
    requires RowOk(agg.game) && ClocksOk(agg.game, agg.moves) && ClockDue(agg, us) && us <= us1 <= us2
    ensures var noShow := PlanNoShow(agg, us1);
            var timeout := PlanTimeout(agg, us2);
            if TurnAge(agg.game, us2) <= MAX_INT4 && !EndsBeforeStart(agg.game, Millis(us2))
            then noShow == ReadOnly(NoEvent) && NewEnding(timeout.response).Some?
            else
              || noShow == ReadOnly(TransactionFailed)
              || (noShow == ReadOnly(NoEvent) && timeout == ReadOnly(TransactionFailed))
  {
    TurnIsDue(agg, us, us1);
    TurnIsDue(agg, us, us2);
  }

  /** While waiting, at most one player has joined, so the no-show outcome always derives. */
  lemma NoShowDerives(agg: Aggregate)
    requires PlayersOk(agg) && agg.game.status.WaitingForPlayers?
    ensures DeriveTerminalOutcome(NoShowEvent(JoinedColors(agg))).Ok?
  {
    OneJoined(agg);
    NoShowOfOneDerives(JoinedColors(agg));
  }

  lemma OneJoined(agg: Aggregate)
    requires PlayersOk(agg) && agg.game.status.WaitingForPlayers?
    ensures JoinedColors(agg) == [] || JoinedColors(agg) == [White] || JoinedColors(agg) == [Black]
  {
  }

  lemma NoShowOfOneDerives(joined: seq<Color>)
    requires joined == [] || joined == [White] || joined == [Black]
    ensures DeriveTerminalOutcome(NoShowEvent(joined)).Ok?
  {
    DerivationRefusesExactly(NoShowEvent(joined));
  }

  /** Once due, a running turn stays due, and its projection is zero unless it fails. */
  lemma TurnIsDue(agg: Aggregate, us: nat, later: nat)
    requires ClockDue(agg, us) && us <= later
    requires 1 <= agg.game.ClockOf(agg.game.turnColor) <= MAX_INT4
    ensures var remaining := SqlRemaining(agg.game.ClockOf(agg.game.turnColor), agg.game.turnStartedAt.value, later);
            remaining == if TurnAge(agg.game, later) <= MAX_INT4 then Some(0) else None
  {
    SqlElapsedIsMillisecondElapsed(agg.game.turnStartedAt.value, later);
  }

  // ----- the failing family -----

  /** A running turn too old for the INTEGER cast: every transaction except readiness fails,
      and readiness does not touch the game row. */
  lemma OverdueTurnIsStuck(rules: Rules, agg: Aggregate, request: Request, us: nat)
    requires AggOk(rules, agg) && agg.game.status.Running() && TurnAge(agg.game, us) > MAX_INT4
    ensures Apply(rules, agg, request, us).game == agg.game
    ensures !request.MarkReady? ==> Answer(rules, agg, request, us) == TransactionFailed
    ensures !request.MarkReady? ==> Apply(rules, agg, request, us) == agg
  {
    SqlProjectionFailsExactly(agg.game.ClockOf(agg.game.turnColor), agg.game.turnStartedAt.value, us);
    UnlockableGame(rules, agg, request, us);
  }

  lemma UnlockableGame(rules: Rules, agg: Aggregate, request: Request, us: nat)
    requires agg.game.status.Running() && LockGameClock(agg.game, us).None?
    ensures if request.MarkReady? then Apply(rules, agg, request, us).game == agg.game
            else PlanFor(rules, agg, request, us) == ReadOnly(TransactionFailed)
  {
  }

  predicate AllAfter(steps: seq<Timed>, game: GameRow) {
    forall i :: 0 <= i < |steps| ==> TurnAge(game, steps[i].us) > MAX_INT4
  }

  /** From then on no sequence of transactions ends the game: it stays active for ever. */
  lemma {:induction false} OverdueGameNeverEnds(rules: Rules, agg: Aggregate, steps: seq<Timed>)
    requires rules.Faithful() && AggOk(rules, agg) && agg.game.status.Running()
    requires AllAfter(steps, agg.game)
    ensures RunGame(rules, agg, steps).game == agg.game
  {
    if steps != [] {
      var front, last := steps[..|steps| - 1], steps[|steps| - 1];
      OverdueGameNeverEnds(rules, agg, front);
      RunOfOneGame(rules, agg, front);
      OverdueTurnIsStuck(rules, RunGame(rules, agg, front), last.request, last.us);
    }
  }

  /** A new game, both of whose players are ready and which then starts, all at instant 0. */
  function StartedGameAtZero(rules: Rules): Aggregate {
    RunGame(rules, FreshAggregate(rules, 1, 1, 1, 2, 300000, 2000, 20000), [
      Timed(MarkReady(1, 0, 0), 0), Timed(MarkReady(2, 0, 0), 0), Timed(StartIfReady, 0)])
  }

  lemma StartedGameRuns(rules: Rules)
    ensures var agg := StartedGameAtZero(rules);
            && agg.game.status.InProgress? && agg.game.startedAt == agg.game.turnStartedAt == Some(0)
            && agg.game.turnColor.White? && agg.game.whiteClockMs == agg.game.blackClockMs == 300000
            && agg.game.timeInitialMs == 300000 && agg.game.incrementMs == 2000
            && agg.white.guest == 1 && agg.black.guest == 2 && agg.moves == [] && agg.commands == map[]
  {
    RunThree(
      rules, FreshAggregate(rules, 1, 1, 1, 2, 300000, 2000, 20000),
      Timed(MarkReady(1, 0, 0), 0), Timed(MarkReady(2, 0, 0), 0), Timed(StartIfReady, 0));
  }

  lemma StartedGameOk(rules: Rules)
    requires rules.Faithful()
    ensures AggOk(rules, StartedGameAtZero(rules))
  {
    FreshAggregateOk(rules, 1, 1, 1, 2, 300000, 2000, 20000);
    RunOfOneGame(rules, FreshAggregate(rules, 1, 1, 1, 2, 300000, 2000, 20000), [
      Timed(MarkReady(1, 0, 0), 0), Timed(MarkReady(2, 0, 0), 0), Timed(StartIfReady, 0)]);
  }

  const MONTH_US: nat := 30 * 24 * 3600 * 1000 * 1000

  /** A reachable example: both players ready, the game started at instant 0, and nothing
      happened for thirty days.  It is due, and adjudicating it fails. */
  lemma OverdueExample(rules: Rules)
    requires rules.Faithful()
    ensures var game := StartedGameAtZero(rules);
            && AggOk(rules, game)
            && ClockDue(game, MONTH_US)
            && AdjudicateJoinAndClock(rules, game, MONTH_US, MONTH_US) == TransactionFailed
  {
    StartedGameOk(rules);
    StartedGameRuns(rules);
    DueGamesEndExactly(rules, StartedGameAtZero(rules), MONTH_US, MONTH_US, MONTH_US);
  }

  lemma RunThree(rules: Rules, agg: Aggregate, a: Timed, b: Timed, c: Timed)
    ensures RunGame(rules, agg, [a, b, c]) ==
            Apply(rules, Apply(rules, Apply(rules, agg, a.request, a.us), b.request, b.us), c.request, c.us)
  {
    assert [a, b, c][..2] == [a, b];
    assert [a, b][..1] == [a];
    assert [a][..0] == [];
    assert RunGame(rules, agg, [a]) == Apply(rules, agg, a.request, a.us);
    assert RunGame(rules, agg, [a, b]) == Apply(rules, RunGame(rules, agg, [a]), b.request, b.us);
  }

  // ----- grace adjudication -----

  /** What an abandonment derives: nobody named is refused, both named void the game, and one
      named loses to the other. */
  lemma AbandonmentDerives(agg: Aggregate, absent: seq<GuestId>)
    ensures var derived := DeriveTerminalOutcome(AbandonmentEvent(AbsentColors(agg, absent)));
            if agg.white.guest in absent && agg.black.guest in absent then
              derived == Ok(TerminalOutcome(Void, Abandoned, DoubleAbandon, None))
            else if agg.white.guest in absent then derived == Ok(WinnerOutcome(Black, Abandoned, Abandonment))
            else if agg.black.guest in absent then derived == Ok(WinnerOutcome(White, Abandoned, Abandonment))
            else derived.Err?
  {
    AbsentColorsAre(agg, absent);
    NamedColorsDerive(AbsentColors(agg, absent));
  }

  lemma AbsentColorsAre(agg: Aggregate, absent: seq<GuestId>)
    ensures AbsentColors(agg, absent) ==
            if agg.white.guest in absent && agg.black.guest in absent then [White, Black]
            else if agg.white.guest in absent then [White]
            else if agg.black.guest in absent then [Black]
            else []
  {
  }

  lemma NamedColorsDerive(colors: seq<Color>)
    requires colors == [] || colors == [White] || colors == [Black] || colors == [White, Black]
    ensures DeriveTerminalOutcome(AbandonmentEvent(colors)) ==
            if colors == [White, Black] then Ok(TerminalOutcome(Void, Abandoned, DoubleAbandon, None))
            else if colors == [White] then Ok(WinnerOutcome(Black, Abandoned, Abandonment))
            else if colors == [Black] then Ok(WinnerOutcome(White, Abandoned, Abandonment))
            else DeriveTerminalOutcome(AbandonmentEvent([]))
    ensures DeriveTerminalOutcome(AbandonmentEvent([])).Err?
  {
    UniqueOfFew();
  }

  lemma UniqueOfFew()
    ensures UniqueColors([]) == []
    ensures UniqueColors([White]) == [White] && UniqueColors([Black]) == [Black]
    ensures UniqueColors([White, Black]) == [White, Black]
  {
    assert [White, Black][..1] == [White];
  }

  /** Grace adjudication ends a game exactly when it is reconnecting, every player named is
      recorded as disconnected, and the grace of one of them is over. */
  lemma AbandonmentEndsExactly(agg: Aggregate, absent: seq<GuestId>, us: nat)
    requires PlayersOk(agg)
    ensures NewEnding(PlanAbandonment(agg, absent, us).response).Some? <==>
              && LockGameClock(agg.game, us).Some? && !EndsBeforeStart(agg.game, Millis(us))
              && agg.game.status.Reconnecting?
              && (agg.white.guest in absent ==> agg.white.disconnectedAt.Some?)
              && (agg.black.guest in absent ==> agg.black.disconnectedAt.Some?)
              && NamesSomeoneExpired(agg, absent, Millis(us))
  {
    AbandonmentDerives(agg, absent);
  }

  /** Disconnect bookkeeping, in every reachable state. */
  lemma DisconnectBookkeeping(rules: Rules, agg: Aggregate)
    requires AggOk(rules, agg)
    ensures agg.game.status.Reconnecting? <==> exists c: Color :: agg.Player(c).disconnectedAt.Some?
    ensures forall c: Color :: agg.Player(c).disconnectedAt.Some? <==> agg.Player(c).graceEndsAt.Some?
    ensures agg.game.reconnectDeadlineAt.None? <==> !agg.game.status.Reconnecting?
    ensures agg.game.reconnectDeadlineAt.Some? ==>
              && (forall c: Color :: agg.Player(c).graceEndsAt.Some? ==>
                    agg.game.reconnectDeadlineAt.value <= agg.Player(c).graceEndsAt.value)
              && (exists c: Color :: agg.Player(c).graceEndsAt == agg.game.reconnectDeadlineAt)
  {
    assert agg.Player(White) == agg.white && agg.Player(Black) == agg.black;
  }
}
