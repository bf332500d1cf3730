/** The Fischer clock: the pure clock of the domain layer, its two SQL twins, and
    the agreement between all of them.  Instants are integer milliseconds since the
    epoch; PostgreSQL's own clock is read in microseconds. */
module GameClock {
  import opened Domain

  const MAX_INT4: int := 2147483647

  datatype Clock = Clock(
    whiteMs: int,
    blackMs: int,
    incrementMs: int,
    running: Option<Color>,
    turnStartedAt: Option<int>)

  datatype ClockView = ClockView(whiteMs: int, blackMs: int, running: Option<Color>, observedAt: int)

  /** The two-way result of a clock test: the side to move still had time, or its flag fell. */
  datatype Admission =
    | Accepted(clock: Clock, elapsedMs: int)
    | FlagFall(clock: Clock, elapsedMs: int, flagged: Color)

  predicate Duration(value: int) { 0 <= value <= MAX_SAFE_INTEGER }

  predicate WellFormed(clock: Clock) {
    && Duration(clock.whiteMs)
    && Duration(clock.blackMs)
    && Duration(clock.incrementMs)
    && clock.running.Some? == clock.turnStartedAt.Some?
  }

  function RemainingFor(clock: Clock, color: Color): int {
    if color.White? then clock.whiteMs else clock.blackMs
  }

  function WithRemaining(clock: Clock, color: Color, remainingMs: int): Clock {
    if color.White? then clock.(whiteMs := remainingMs) else clock.(blackMs := remainingMs)
  }

  /** Time spent on the running turn, never negative. */
  function Elapsed(startedAt: int, observedAt: int): int {
    Max(0, observedAt - startedAt)
  }

  function FlagFallAt(clock: Clock, flagged: Color, elapsedMs: int): Admission {
    FlagFall(WithRemaining(clock, flagged, 0).(running := None, turnStartedAt := None), elapsedMs, flagged)
  }

  function ResumeClock(clock: Clock, running: Color, startedAt: int): Result<Clock, DomainError> {
    if !WellFormed(clock) || clock.running.Some? || clock.turnStartedAt.Some? then Err(InvalidClock)
    else if RemainingFor(clock, running) == 0 then Err(InvalidClock)
    else Ok(clock.(running := Some(running), turnStartedAt := Some(startedAt)))
  }

  function PauseClock(clock: Clock, observedAt: int): Result<Admission, DomainError> {
    if !WellFormed(clock) || clock.running.None? then Err(InvalidClock)
    else
      var running := clock.running.value;
      var elapsedMs := Elapsed(clock.turnStartedAt.value, observedAt);
      var remaining := RemainingFor(clock, running);
      if elapsedMs >= remaining then Ok(FlagFallAt(clock, running, elapsedMs))
      else
        Ok(Accepted(
          WithRemaining(clock, running, remaining - elapsedMs).(running := None, turnStartedAt := None),
          elapsedMs))
  }

  function AdmitMoveOnClock(clock: Clock, mover: Color, serverReceivedAt: int): Result<Admission, DomainError> {
    if !WellFormed(clock) || clock.running != Some(mover) then Err(InvalidClock)
    else
      var elapsedMs := Elapsed(clock.turnStartedAt.value, serverReceivedAt);
      var remaining := RemainingFor(clock, mover);
      if elapsedMs >= remaining then Ok(FlagFallAt(clock, mover, elapsedMs))
      else
        var afterIncrement := remaining - elapsedMs + clock.incrementMs;
        if afterIncrement > MAX_SAFE_INTEGER then Err(InvalidClock)
        else
          Ok(Accepted(
            WithRemaining(clock, mover, afterIncrement)
              .(running := Some(mover.Opposite()), turnStartedAt := Some(serverReceivedAt)),
            elapsedMs))
  }

  function CheckFlagFall(clock: Clock, observedAt: int): Result<Admission, DomainError> {
    if !WellFormed(clock) || clock.running.None? then Err(InvalidClock)
    else
      var elapsedMs := Elapsed(clock.turnStartedAt.value, observedAt);
      if elapsedMs >= RemainingFor(clock, clock.running.value) then
        Ok(FlagFallAt(clock, clock.running.value, elapsedMs))
      else Ok(Accepted(clock, elapsedMs))
  }

  function ClockViewAt(clock: Clock, observedAt: int): Result<ClockView, DomainError> {
    if !WellFormed(clock) then Err(InvalidClock)
    else if clock.running.None? then Ok(ClockView(clock.whiteMs, clock.blackMs, None, observedAt))
    else
      var elapsedMs := Elapsed(clock.turnStartedAt.value, observedAt);
      var remaining := Max(0, RemainingFor(clock, clock.running.value) - elapsedMs);
      var viewed := WithRemaining(clock, clock.running.value, remaining);
      Ok(ClockView(viewed.whiteMs, viewed.blackMs, clock.running, observedAt))
  }

  function ClockDeadline(clock: Clock): Result<Option<int>, DomainError> {
    if !WellFormed(clock) then Err(InvalidClock)
    else if clock.running.None? || clock.turnStartedAt.None? then Ok(None)
    else Ok(Some(clock.turnStartedAt.value + RemainingFor(clock, clock.running.value)))
  }

  // ----- the SQL twins -----

  /** A JavaScript Date built from a PostgreSQL timestamp keeps whole milliseconds. */
  function Millis(micros: int): int { micros / 1000 }

  predicate InInt4(value: int) { -MAX_INT4 - 1 <= value <= MAX_INT4 }

  /** floor(extract(epoch from observed - started) * 1000), before the cast to INTEGER. */
  function SqlElapsed(startedAt: int, observedUs: int): int {
    (observedUs - startedAt * 1000) / 1000
  }

  /** The projected clock of the running side.  None: the cast or the subtraction left
      the INTEGER range and the statement failed. */
  function SqlRemaining(remainingMs: int, startedAt: int, observedUs: int): Option<int> {
    var elapsed := SqlElapsed(startedAt, observedUs);
    if !InInt4(elapsed) || !InInt4(remainingMs - elapsed) then None
    else Some(Max(0, remainingMs - elapsed))
  }

  /** The clock clause of the due-games query. */
  predicate SqlClockDue(remainingMs: int, startedAt: int, nowUs: int) {
    startedAt * 1000 + remainingMs * 1000 <= nowUs
  }

  // ----- agreement -----

  lemma SqlElapsedIsMillisecondElapsed(startedAt: int, observedUs: int)
    ensures SqlElapsed(startedAt, observedUs) == Millis(observedUs) - startedAt
  {
    var q, r := observedUs / 1000, observedUs % 1000;
    assert observedUs - startedAt * 1000 == (q - startedAt) * 1000 + r;
  }

  lemma SqlDueIsMillisecondDue(remainingMs: int, startedAt: int, nowUs: int)
    ensures SqlClockDue(remainingMs, startedAt, nowUs) <==> startedAt + remainingMs <= Millis(nowUs)
  {
  }

  /** One instant, one running clock: every place in the system that asks "is it over?". */
  datatype TimeoutTests = TimeoutTests(
    deadlinePassed: bool,
    flagFallChecked: bool,
    moveRefused: bool,
    viewShowsZero: bool,
    dueQuery: bool)
  {
    predicate Agree() {
      deadlinePassed == flagFallChecked == moveRefused == viewShowsZero == dueQuery
    }
  }

  function TestsAt(clock: Clock, us: int): TimeoutTests
    requires WellFormed(clock) && clock.running.Some?
    requires clock.incrementMs + RemainingFor(clock, clock.running.value) <= MAX_SAFE_INTEGER
  {
    var now := Millis(us);
    var side := clock.running.value;
    var view := ClockViewAt(clock, now).value;
    TimeoutTests(
      ClockDeadline(clock).value.value <= now,
      CheckFlagFall(clock, now).value.FlagFall?,
      AdmitMoveOnClock(clock, side, now).value.FlagFall?,
      (if side.White? then view.whiteMs else view.blackMs) == 0,
      SqlClockDue(RemainingFor(clock, side), clock.turnStartedAt.value, us))
  }

  /** All five tests agree except on a clock already at zero whose turn starts in the future. */
  lemma TimeoutTestsAgree(clock: Clock, us: int)
    requires WellFormed(clock) && clock.running.Some?
    requires clock.incrementMs + RemainingFor(clock, clock.running.value) <= MAX_SAFE_INTEGER
    ensures TestsAt(clock, us).Agree() <==>
            Millis(us) >= clock.turnStartedAt.value || RemainingFor(clock, clock.running.value) > 0
  {
    SqlDueIsMillisecondDue(RemainingFor(clock, clock.running.value), clock.turnStartedAt.value, us);
  }

  /** The locking statement's projection reaches zero exactly when the deadline has passed,
      and shows exactly the domain's clock view when, and only when, the observation is not
      earlier than the turn's start: the statement does not clamp a negative elapsed time. */
  lemma SqlProjectionAgrees(clock: Clock, us: int)
    requires WellFormed(clock) && clock.running.Some?
    requires SqlRemaining(RemainingFor(clock, clock.running.value), clock.turnStartedAt.value, us).Some?
    ensures var side := clock.running.value;
            var projected := SqlRemaining(RemainingFor(clock, side), clock.turnStartedAt.value, us).value;
            var view := ClockViewAt(clock, Millis(us)).value;
            && (projected == 0 <==> ClockDeadline(clock).value.value <= Millis(us))
            && (projected == (if side.White? then view.whiteMs else view.blackMs)
                <==> Millis(us) >= clock.turnStartedAt.value)
  {
    SqlElapsedIsMillisecondElapsed(clock.turnStartedAt.value, us);
  }

  /** The projection fails exactly outside the window of about 24.8 days around the turn's start. */
  lemma SqlProjectionFailsExactly(remainingMs: int, startedAt: int, us: int)
    requires 0 <= remainingMs <= MAX_INT4
    ensures SqlRemaining(remainingMs, startedAt, us).None? <==>
            (Millis(us) - startedAt > MAX_INT4 || Millis(us) - startedAt < remainingMs - MAX_INT4)
  {
    SqlElapsedIsMillisecondElapsed(startedAt, us);
  }

  /** Pausing and resuming later shifts the turn: the paused interval is charged to nobody. */
  lemma PausedIntervalIsFree(clock: Clock, pausedAt: int, resumedAt: int, observedAt: int)
    requires PauseClock(clock, pausedAt).Ok? && PauseClock(clock, pausedAt).value.Accepted?
    requires clock.turnStartedAt.value <= pausedAt && resumedAt <= observedAt
    ensures var paused := PauseClock(clock, pausedAt).value.clock;
            var resumed := ResumeClock(paused, clock.running.value, resumedAt);
            && ClockDeadline(paused) == Ok(None)
            && resumed.Ok?
            && ClockViewAt(resumed.value, observedAt).Ok?
            && ClockViewAt(resumed.value, observedAt).value.(observedAt := 0) ==
               ClockViewAt(clock, pausedAt + (observedAt - resumedAt)).value.(observedAt := 0)
  {
  }
}
