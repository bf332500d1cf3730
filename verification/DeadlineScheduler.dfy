/** The in-process deadline scheduler: generations make rescheduling, cancelling and firing
    safe whatever the order in which the asynchronous deadline reads come back.  Each step
    is the code between two awaits. */
module DeadlineScheduler {
  import opened Domain
  import G = GuardedJob

  type TimerId = nat
  type CallId = nat

  const MAX_TIMER_DELAY_MS: int := 2147483647

  /** A pending timeout of the event loop; `call` is the scheduling call that installed it. */
  datatype Timer = Timer(game: GameId, generation: nat, dueAt: int, call: CallId)

  /** A scheduling call waiting for its deadline read. */
  datatype InFlight = InFlight(game: GameId, generation: nat, minimumDelayMs: int)

  datatype State = State(
    generations: map<GameId, nat>,
    timers: map<GameId, TimerId>,
    armed: map<TimerId, Timer>,
    inFlight: map<CallId, InFlight>,
    nextId: nat)

  const Booted: State := State(map[], map[], map[], map[], 0)

  function Generation(generations: map<GameId, nat>, game: GameId): nat {
    if game in generations then generations[game] else 0
  }

  function WithoutTimer(s: State, game: GameId): State {
    if game in s.timers then s.(timers := s.timers - {game}, armed := s.armed - {s.timers[game]}) else s
  }

  function Bump(s: State, game: GameId): State {
    WithoutTimer(s.(generations := s.generations[game := Generation(s.generations, game) + 1]), game)
  }

  /** scheduleGame up to its await. */
  function Begin(s: State, game: GameId, minimumDelayMs: int): State {
    Bump(s, game).(
      inFlight := s.inFlight[s.nextId := InFlight(game, Generation(s.generations, game) + 1, minimumDelayMs)],
      nextId := s.nextId + 1)
  }

  /** How long the timer waits: never less than asked, never more than a timer can wait. */
  function Delay(minimumDelayMs: int, deadline: int, now: int): int {
    var wanted := if deadline - now > minimumDelayMs then deadline - now else minimumDelayMs;
    if wanted < MAX_TIMER_DELAY_MS then wanted else MAX_TIMER_DELAY_MS
  }

  /** The rest of scheduleGame; None when there is no deadline or the read failed. */
  function Finish(s: State, call: CallId, deadline: Option<int>, now: int): State {
    if call !in s.inFlight then s
    else
      var c := s.inFlight[call];
      var read := s.(inFlight := s.inFlight - {call});
      if deadline.None? || Generation(s.generations, c.game) != c.generation then read
      else
        var timer := Timer(c.game, c.generation, now + Delay(c.minimumDelayMs, deadline.value, now), call);
        read.(timers := s.timers[c.game := s.nextId], armed := s.armed[s.nextId := timer], nextId := s.nextId + 1)
  }

  /** A timeout runs its callback, up to the adjudication it awaits. */
  function Expire(s: State, id: TimerId): State {
    if id !in s.armed then s
    else
      var timer := s.armed[id];
      var expired := s.(armed := s.armed - {id});
      if Generation(s.generations, timer.game) != timer.generation then expired
      else expired.(timers := s.timers - {timer.game})
  }

  /** The rest of adjudicateAndReschedule, after a timer or in a sweep. */
  function Adjudicated(s: State, game: GameId, ended: bool, intervalMs: int): State {
    if ended then Bump(s, game) else Begin(s, game, intervalMs)
  }

  // ----- sweeps -----

  /** The sweeps under way, and the games each still has to adjudicate. */
  datatype Sweeps = Sweeps(guard: G.Guard, rest: map<G.RunId, seq<GameId>>, nextSweep: nat)

  const NoSweeps: Sweeps := Sweeps(G.Idle, map[], 0)

  function SweepStarted(s: Sweeps): Sweeps {
    if s.guard.running then s else s.(guard := G.Entered(s.guard, s.nextSweep), nextSweep := s.nextSweep + 1)
  }

  function DueReceived(s: Sweeps, sweep: G.RunId, due: Option<seq<GameId>>): Sweeps {
    if sweep !in s.guard.active || sweep in s.rest then s
    else if due.None? || due.value == [] then s.(guard := G.Left(s.guard, sweep))
    else s.(rest := s.rest[sweep := due.value])
  }

  function GameSwept(s: Sweeps, sweep: G.RunId): Sweeps {
    if sweep !in s.rest then s
    else if |s.rest[sweep]| <= 1 then s.(guard := G.Left(s.guard, sweep), rest := s.rest - {sweep})
    else s.(rest := s.rest[sweep := s.rest[sweep][1..]])
  }

  // ----- the service object -----

  class Service {
    const intervalMs: int
    var generations: map<GameId, nat>
    var timers: map<GameId, TimerId>
    var runningSweep: bool
    ghost var sweeping: set<G.RunId>
    var toSweep: map<G.RunId, seq<GameId>>
    var nextSweep: nat

    // The event loop's side: timeouts not yet run or cleared, and calls waiting for a read.
    var armed: map<TimerId, Timer>
    var inFlight: map<CallId, InFlight>
    var nextId: nat

    ghost function View(): State
      reads this
    {
      State(generations, timers, armed, inFlight, nextId)
    }

    ghost function SweepView(): Sweeps
      reads this
    {
      Sweeps(G.Guard(runningSweep, sweeping), toSweep, nextSweep)
    }

    constructor (intervalMs: int)
      ensures View() == Booted && SweepView() == NoSweeps && this.intervalMs == intervalMs
    {
      this.intervalMs := intervalMs;
      generations, timers, armed, inFlight, nextId := map[], map[], map[], map[], 0;
      runningSweep, sweeping, toSweep, nextSweep := false, {}, map[], 0;
    }

    method ClearTimer(game: GameId)
      modifies this`timers, this`armed
      ensures View() == WithoutTimer(old(View()), game)
    {
      if game in timers {
        armed := armed - {timers[game]};
        timers := timers - {game};
      }
    }

    method BeginSchedule(game: GameId, minimumDelayMs: int) returns (call: CallId)
      modifies this`generations, this`timers, this`armed, this`inFlight, this`nextId
      ensures View() == Begin(old(View()), game, minimumDelayMs) && call == old(nextId)
    {
      var generation := Generation(generations, game) + 1;
      generations := generations[game := generation];
      ClearTimer(game);
      call := nextId;
      inFlight := inFlight[call := InFlight(game, generation, minimumDelayMs)];
      nextId := nextId + 1;
    }

    method FinishSchedule(call: CallId, deadline: Option<int>, now: int)
      requires call in inFlight
      modifies this`timers, this`armed, this`inFlight, this`nextId
      ensures View() == Finish(old(View()), call, deadline, now)
    {
      var c := inFlight[call];
      inFlight := inFlight - {call};
      if deadline.None? || Generation(generations, c.game) != c.generation {
        return;
      }
      var delay := Delay(c.minimumDelayMs, deadline.value, now);
      armed := armed[nextId := Timer(c.game, c.generation, now + delay, call)];
      timers := timers[c.game := nextId];
      nextId := nextId + 1;
    }

    method Cancel(game: GameId)
      modifies this`generations, this`timers, this`armed
      ensures View() == Bump(old(View()), game)
    {
      generations := generations[game := Generation(generations, game) + 1];
      ClearTimer(game);
    }

    /** True when the callback goes on to adjudicate the game. */
    method Fire(id: TimerId) returns (current: bool)
      requires id in armed
      modifies this`timers, this`armed
      ensures View() == Expire(old(View()), id)
      ensures current == (Generation(generations, old(armed)[id].game) == old(armed)[id].generation)
    {
      var timer := armed[id];
      armed := armed - {id};
      if Generation(generations, timer.game) != timer.generation {
        return false;
      }
      timers := timers - {timer.game};
      return true;
    }

    method AfterAdjudication(game: GameId, ended: bool)
      modifies this`generations, this`timers, this`armed, this`inFlight, this`nextId
      ensures View() == Adjudicated(old(View()), game, ended, intervalMs)
    {
      if ended {
        Cancel(game);
      } else {
        var _ := BeginSchedule(game, intervalMs);
      }
    }

    /** runSweep up to its first await; None when a sweep is already running. */
    method StartSweep() returns (sweep: Option<G.RunId>)
      modifies this`runningSweep, this`sweeping, this`nextSweep
      ensures SweepView() == SweepStarted(old(SweepView()))
      ensures sweep == if old(runningSweep) then None else Some(old(nextSweep))
    {
      if runningSweep {
        return None;
      }
      runningSweep := true;
      sweeping := sweeping + {nextSweep};
      sweep := Some(nextSweep);
      nextSweep := nextSweep + 1;
    }

    /** The due games come back, None when the query failed. */
    method ReceiveDueGames(sweep: G.RunId, due: Option<seq<GameId>>)
      requires sweep in sweeping && sweep !in toSweep
      modifies this`runningSweep, this`sweeping, this`toSweep
      ensures SweepView() == DueReceived(old(SweepView()), sweep, due)
    {
      if due.None? || due.value == [] {
        runningSweep := false;
        sweeping := sweeping - {sweep};
        return;
      }
      toSweep := toSweep[sweep := due.value];
    }

    /** One pass of the loop: the first game left was adjudicated, and is cancelled or rescheduled. */
    method SweepNextGame(sweep: G.RunId, ended: bool)
      requires sweep in sweeping && sweep in toSweep && toSweep[sweep] != []
      modifies this
      ensures View() == Adjudicated(old(View()), old(toSweep)[sweep][0], ended, intervalMs)
      ensures SweepView() == GameSwept(old(SweepView()), sweep)
    {
      var games := toSweep[sweep];
      AfterAdjudication(games[0], ended);
      if |games| == 1 {
        runningSweep := false;
        sweeping := sweeping - {sweep};
        toSweep := toSweep - {sweep};
      } else {
        toSweep := toSweep[sweep := games[1..]];
      }
    }
  }

  // ----- the invariant -----

  /** Every registered timer is armed, of the current generation, and every armed one is registered. */
  predicate TimersOk(s: State) {
    && (forall g :: g in s.timers ==>
          s.timers[g] in s.armed && s.armed[s.timers[g]].game == g)
    && (forall id :: id in s.armed ==>
          && id < s.nextId
          && s.armed[id].game in s.timers && s.timers[s.armed[id].game] == id
          && s.armed[id].generation == Generation(s.generations, s.armed[id].game))
  }

  /** A waiting call of the current generation is the only one, and no timer is live beside it. */
  predicate CallsOk(s: State) {
    && (forall c :: c in s.inFlight ==>
          && c < s.nextId
          && s.inFlight[c].generation <= Generation(s.generations, s.inFlight[c].game)
          && (s.inFlight[c].generation == Generation(s.generations, s.inFlight[c].game) ==>
                s.inFlight[c].game !in s.timers))
    && (forall c, d :: c in s.inFlight && d in s.inFlight && c < d && s.inFlight[c].game == s.inFlight[d].game ==>
          s.inFlight[c].generation < s.inFlight[d].generation)
  }

  predicate StateOk(s: State) { TimersOk(s) && CallsOk(s) }

  datatype Event =
    | Schedule(game: GameId, minimumDelayMs: int)
    | DeadlineRead(call: CallId, deadline: Option<int>, now: int)
    | CancelGame(game: GameId)
    | TimerExpires(timer: TimerId)
    | AdjudicationDone(game: GameId, ended: bool)

  function Step(s: State, e: Event, intervalMs: int): State {
    match e
    case Schedule(game, minimumDelayMs) => Begin(s, game, minimumDelayMs)
    case DeadlineRead(call, deadline, now) => Finish(s, call, deadline, now)
    case CancelGame(game) => Bump(s, game)
    case TimerExpires(timer) => Expire(s, timer)
    case AdjudicationDone(game, ended) => Adjudicated(s, game, ended, intervalMs)
  }

  function Run(s: State, events: seq<Event>, intervalMs: int): State {
    if events == [] then s
    else Step(Run(s, events[..|events| - 1], intervalMs), events[|events| - 1], intervalMs)
  }

  lemma BumpKeeps(s: State, game: GameId)
    requires StateOk(s)
    ensures StateOk(Bump(s, game)) && game !in Bump(s, game).timers
  {
  }

  lemma BeginKeeps(s: State, game: GameId, minimumDelayMs: int)
    requires StateOk(s)
    ensures StateOk(Begin(s, game, minimumDelayMs))
  {
    BumpKeeps(s, game);
  }

  lemma FinishKeeps(s: State, call: CallId, deadline: Option<int>, now: int)
    requires StateOk(s)
    ensures StateOk(Finish(s, call, deadline, now))
  {
  }

  lemma ExpireKeeps(s: State, id: TimerId)
    requires StateOk(s)
    ensures StateOk(Expire(s, id))
  {
  }

  lemma StepKeeps(s: State, e: Event, intervalMs: int)
    requires StateOk(s)
    ensures StateOk(Step(s, e, intervalMs))
  {
    match e
    case Schedule(game, minimumDelayMs) => BeginKeeps(s, game, minimumDelayMs);
    case DeadlineRead(call, deadline, now) => FinishKeeps(s, call, deadline, now);
    case CancelGame(game) => BumpKeeps(s, game);
    case TimerExpires(timer) => ExpireKeeps(s, timer);
    case AdjudicationDone(game, ended) =>
      if ended {
        BumpKeeps(s, game);
      } else {
        BeginKeeps(s, game, intervalMs);
      }
  }

  lemma {:induction false} RunKeeps(s: State, events: seq<Event>, intervalMs: int)
    requires StateOk(s)
    ensures StateOk(Run(s, events, intervalMs))
  {
    if events != [] {
      RunKeeps(s, events[..|events| - 1], intervalMs);
      StepKeeps(Run(s, events[..|events| - 1], intervalMs), events[|events| - 1], intervalMs);
    }
  }

  // ----- what that means -----

  /** At most one timer of a game is live, and a timer that expires is never stale. */
  lemma AtMostOneLiveTimer(events: seq<Event>, intervalMs: int, a: TimerId, b: TimerId)
    requires var s := Run(Booted, events, intervalMs);
             a in s.armed && b in s.armed && s.armed[a].game == s.armed[b].game
    ensures a == b
    ensures var s := Run(Booted, events, intervalMs);
            Generation(s.generations, s.armed[a].game) == s.armed[a].generation
  {
    RunKeeps(Booted, events, intervalMs);
  }

  /** The scheduling call an event starts for a game, were it the next event of a run. */
  predicate Starts(e: Event, game: GameId) {
    (e.Schedule? && e.game == game) || (e.AdjudicationDone? && !e.ended && e.game == game)
  }

  predicate Cancels(e: Event, game: GameId) {
    (e.CancelGame? && e.game == game) || (e.AdjudicationDone? && e.ended && e.game == game)
  }

  /** The most recently started scheduling call of a game, None if it was cancelled since. */
  function LatestCall(events: seq<Event>, game: GameId, intervalMs: int): Option<CallId> {
    if events == [] then None
    else
      var front := events[..|events| - 1];
      var last := events[|events| - 1];
      if Starts(last, game) then Some(Run(Booted, front, intervalMs).nextId)
      else if Cancels(last, game) then None
      else LatestCall(front, game, intervalMs)
  }

  predicate IsCurrent(s: State, call: InFlight, game: GameId) {
    call.game == game && call.generation == Generation(s.generations, game)
  }

  /** What is current about one game belongs to its latest call. */
  predicate BelongsToLatest(s: State, game: GameId, latest: Option<CallId>) {
    && (game in s.timers && s.timers[game] in s.armed ==> Some(s.armed[s.timers[game]].call) == latest)
    && (forall c :: c in s.inFlight && IsCurrent(s, s.inFlight[c], game) ==> Some(c) == latest)
  }

  /** However the deadline reads resolve, the live timer of a game was installed by the most
      recently started scheduling of that game, and none is live once it was cancelled. */
  lemma {:induction false} LiveTimerIsLatest(events: seq<Event>, intervalMs: int, game: GameId)
    ensures BelongsToLatest(Run(Booted, events, intervalMs), game, LatestCall(events, game, intervalMs))
  {
    if events != [] {
      var front := events[..|events| - 1];
      LiveTimerIsLatest(front, intervalMs, game);
      RunKeeps(Booted, front, intervalMs);
      StepKeepsLatest(Run(Booted, front, intervalMs), events[|events| - 1], intervalMs, game,
                      LatestCall(front, game, intervalMs));
    }
  }

  lemma StepKeepsLatest(s: State, e: Event, intervalMs: int, game: GameId, latest: Option<CallId>)
    requires StateOk(s) && BelongsToLatest(s, game, latest)
    ensures BelongsToLatest(Step(s, e, intervalMs), game,
                            if Starts(e, game) then Some(s.nextId) else if Cancels(e, game) then None else latest)
  {
  }

  /** The game has no live timer, and no waiting call that could install one. */
  predicate Quiet(s: State, game: GameId) {
    && game !in s.timers
    && (forall id :: id in s.armed ==> s.armed[id].game != game)
    && (forall c :: c in s.inFlight ==> !IsCurrent(s, s.inFlight[c], game))
  }

  lemma BumpIsQuiet(s: State, game: GameId)
    requires StateOk(s)
    ensures Quiet(Bump(s, game), game)
  {
    BumpKeeps(s, game);
  }

  lemma StepKeepsQuiet(s: State, e: Event, intervalMs: int, game: GameId)
    requires StateOk(s) && Quiet(s, game) && !Starts(e, game)
    ensures Quiet(Step(s, e, intervalMs), game)
  {
    if Cancels(e, game) {
      BumpIsQuiet(s, game);
    }
  }

  /** After a cancel, no scheduling started earlier can ever install a timer: until a new one
      starts, the game has none. */
  lemma {:induction false} CancelIsFinal(s: State, game: GameId, events: seq<Event>, intervalMs: int)
    requires StateOk(s)
    requires forall e :: e in events ==> !Starts(e, game)
    ensures Quiet(Run(Bump(s, game), events, intervalMs), game)
  {
    BumpKeeps(s, game);
    if events == [] {
      BumpIsQuiet(s, game);
    } else {
      var front := events[..|events| - 1];
      CancelIsFinal(s, game, front, intervalMs);
      RunKeeps(Bump(s, game), front, intervalMs);
      StepKeepsQuiet(Run(Bump(s, game), front, intervalMs), events[|events| - 1], intervalMs, game);
    }
  }

  // ----- sweeps never overlap, and adjudicate each game they read -----

  datatype SweepEvent =
    | SweepTick
    | DueGames(sweep: G.RunId, due: Option<seq<GameId>>)
    | SweepMovesOn(sweep: G.RunId)

  function SweepStep(s: Sweeps, e: SweepEvent): Sweeps {
    match e
    case SweepTick => SweepStarted(s)
    case DueGames(sweep, due) => DueReceived(s, sweep, due)
    case SweepMovesOn(sweep) => GameSwept(s, sweep)
  }

  function RunSweeps(events: seq<SweepEvent>): Sweeps {
    if events == [] then NoSweeps else SweepStep(RunSweeps(events[..|events| - 1]), events[|events| - 1])
  }

  predicate SweepsOk(s: Sweeps) {
    && G.Exclusive(s.guard)
    && (forall id :: id in s.guard.active ==> id < s.nextSweep)
    && (forall id :: id in s.rest ==> id in s.guard.active && s.rest[id] != [])
  }

  lemma SweepStepKeeps(s: Sweeps, e: SweepEvent)
    requires SweepsOk(s)
    ensures SweepsOk(SweepStep(s, e))
  {
    match e
    case SweepTick => G.EntryKeepsExclusive(s.guard, s.nextSweep);
    case DueGames(sweep, _) => G.ExitKeepsExclusive(s.guard, sweep);
    case SweepMovesOn(sweep) =>
      G.ExitKeepsExclusive(s.guard, sweep);
      assert forall id :: id in s.rest && id != sweep ==> id in s.guard.active;
  }

  /** The step by which a sweep reads its games. */
  predicate Reads(s: Sweeps, e: SweepEvent, sweep: G.RunId) {
    e.DueGames? && e.sweep == sweep && sweep in s.guard.active && sweep !in s.rest && e.due.Some?
  }

  /** The game a step of a sweep has adjudicated, if it is one. */
  function JustSwept(s: Sweeps, e: SweepEvent, sweep: G.RunId): seq<GameId> {
    if e == SweepMovesOn(sweep) && sweep in s.rest && s.rest[sweep] != [] then [s.rest[sweep][0]] else []
  }

  /** The games a sweep read, None before it has read them. */
  function GamesRead(events: seq<SweepEvent>, sweep: G.RunId): Option<seq<GameId>> {
    if events == [] then None
    else
      var front, e := events[..|events| - 1], events[|events| - 1];
      if Reads(RunSweeps(front), e, sweep) then e.due else GamesRead(front, sweep)
  }

  /** The games a sweep has adjudicated, in order. */
  function GamesSwept(events: seq<SweepEvent>, sweep: G.RunId): seq<GameId> {
    if events == [] then []
    else
      var front := events[..|events| - 1];
      GamesSwept(front, sweep) + JustSwept(RunSweeps(front), events[|events| - 1], sweep)
  }

  predicate SweepProgress(s: Sweeps, sweep: G.RunId, read: Option<seq<GameId>>, swept: seq<GameId>) {
    if sweep in s.rest then read == Some(swept + s.rest[sweep])
    else if sweep in s.guard.active || sweep >= s.nextSweep then read.None? && swept == []
    else swept == read.GetOr([])
  }

  /** A sweep never overlaps another.  It adjudicates the games it read once each, in the order
      it read them: so far those before the ones left, and all of them once it has ended. */
  lemma {:induction false} SweepsTakeTurns(events: seq<SweepEvent>, sweep: G.RunId)
    ensures SweepsOk(RunSweeps(events))
    ensures SweepProgress(RunSweeps(events), sweep, GamesRead(events, sweep), GamesSwept(events, sweep))
  {
    if events != [] {
      var front, e := events[..|events| - 1], events[|events| - 1];
      SweepsTakeTurns(front, sweep);
      SweepStepKeeps(RunSweeps(front), e);
      SweepStepProgresses(RunSweeps(front), e, sweep, GamesRead(front, sweep), GamesSwept(front, sweep));
    }
  }

  lemma SweepStepProgresses(s: Sweeps, e: SweepEvent, sweep: G.RunId, read: Option<seq<GameId>>, swept: seq<GameId>)
    requires SweepsOk(s) && SweepProgress(s, sweep, read, swept)
    ensures SweepProgress(
              SweepStep(s, e), sweep, if Reads(s, e, sweep) then e.due else read, swept + JustSwept(s, e, sweep))
  {
    if JustSwept(s, e, sweep) == [] {
      assert swept + JustSwept(s, e, sweep) == swept;
      if Reads(s, e, sweep) {
        assert swept + e.due.value == e.due.value;
      }
    } else {
      assert swept + s.rest[sweep] == (swept + [s.rest[sweep][0]]) + s.rest[sweep][1..];
    }
  }

  /** While a sweep is under way no other is, whatever else happens in between. */
  lemma SweepsNeverOverlap(events: seq<SweepEvent>, a: G.RunId, b: G.RunId)
    requires a in RunSweeps(events).guard.active
    ensures b in RunSweeps(events).guard.active ==> a == b
    ensures RunSweeps(events + [SweepTick]) == RunSweeps(events)
  {
    SweepsTakeTurns(events, a);
    assert (events + [SweepTick])[..|events|] == events;
  }

  // ----- deadlines too far away for one timer -----

  /** When the timers of successive hops run: each no earlier than the one before arranged. */
  predicate Hops(times: seq<int>, minimumDelayMs: int, deadline: int) {
    && times != []
    && forall i :: 0 <= i < |times| - 1 ==> times[i + 1] >= times[i] + Delay(minimumDelayMs, deadline, times[i])
  }

  /** How many further timers a deadline can need. */
  function HopsLeft(deadline: int, now: int): nat {
    if deadline <= now then 0 else (deadline - now + MAX_TIMER_DELAY_MS - 1) / MAX_TIMER_DELAY_MS
  }

  /** Each hop that does not yet reach the deadline leaves strictly fewer. */
  lemma HopDecreases(minimumDelayMs: int, deadline: int, now: int, next: int)
    requires now < deadline && next >= now + Delay(minimumDelayMs, deadline, now)
    ensures HopsLeft(deadline, next) < HopsLeft(deadline, now)
  {
    if next < deadline {
      assert Delay(minimumDelayMs, deadline, now) == MAX_TIMER_DELAY_MS;
      assert deadline - next + MAX_TIMER_DELAY_MS - 1 <= (deadline - now + MAX_TIMER_DELAY_MS - 1) - MAX_TIMER_DELAY_MS;
    }
  }

  /** So the deadline is reached within that many hops, however late each timer runs. */
  lemma {:induction false} DeadlineIsReached(times: seq<int>, minimumDelayMs: int, deadline: int)
    requires 0 <= minimumDelayMs && Hops(times, minimumDelayMs, deadline)
    requires |times| > HopsLeft(deadline, times[0])
    ensures times[|times| - 1] >= deadline
    decreases |times|
  {
    if times[0] >= deadline {
      NeverBack(times, minimumDelayMs, deadline);
    } else {
      HopDecreases(minimumDelayMs, deadline, times[0], times[1]);
      DeadlineIsReached(times[1..], minimumDelayMs, deadline);
    }
  }

  lemma {:induction false} NeverBack(times: seq<int>, minimumDelayMs: int, deadline: int)
    requires 0 <= minimumDelayMs && Hops(times, minimumDelayMs, deadline)
    ensures times[|times| - 1] >= times[0]
  {
    if |times| > 1 {
      NeverBack(times[1..], minimumDelayMs, deadline);
    }
  }

  /** A timer is never armed past the deadline, unless the minimum delay asks for it. */
  lemma NoOvershoot(minimumDelayMs: int, deadline: int, now: int)
    requires deadline - now >= minimumDelayMs
    ensures now + Delay(minimumDelayMs, deadline, now) <= deadline
    ensures deadline - now <= MAX_TIMER_DELAY_MS ==> now + Delay(minimumDelayMs, deadline, now) == deadline
  {
  }
}
