/** The room service: readying a player marks it ready, starts the game if that makes it ready,
    shows the game, and schedules its next deadline. */
module GameRoom {
  import opened Domain
  import opened GameClock
  import opened ChessEngine
  import opened GameRows
  import opened GameInvariant
  import opened GameHistory
  import opened GameDeadlines
  import opened GameDatabase
  import opened GameStore
  import opened Snapshots
  import opened EphemeralState
  import D = DeadlineScheduler

  /** The game as a request is shown it. */
  datatype RoomView = RoomView(agg: Aggregate, clocks: ClockView)

  datatype RoomAnswer =
    | RoomReady(started: Option<StartedGame>, view: RoomView)
    | Refused(code: ErrorCode)
    | RoomFailed

  /** What other requests do while this one awaits its steps. */
  datatype Others = Others(beforeStart: seq<Call>, beforeView: seq<Call>, beforeDeadline: seq<Call>)

  /** The first two steps: the call goes on, reporting a start if it made one, or stops. */
  datatype Progress = GoesOn(started: Option<StartedGame>) | Stops(answer: RoomAnswer)

  function AnnouncedStart(row: GameRow): Option<StartedGame> {
    if row.startedAt.None? then None
    else
      Some(StartedGame(
        GameplayClock(row.whiteClockMs, row.blackClockMs, Some(White), row.startedAt.value),
        row.version, row.initialFen))
  }

  function StartRoom(rules: Rules, db: Db, game: GameId, us: nat): (Db, Progress) {
    (Transact(rules, db, game, StartIfReady, us),
     match TransactAnswer(rules, db, game, StartIfReady, us)
     case FoundGame(found, started) =>
       if !started then GoesOn(None)
       else if AnnouncedStart(found).Some? then GoesOn(AnnouncedStart(found))
       else Stops(Refused(GameStateCorrupt))
     case _ => Stops(RoomFailed))
  }

  /** Marking a player ready and then, if that makes the game ready, starting it. */
  function MarkAndStart(
    rules: Rules, db: Db, game: GameId, guest: GuestId, expectedVersion: int, observedAt: int, us: nat,
    beforeStart: seq<Call>): (Db, Progress)
  {
    var mark := MarkReady(guest, expectedVersion, observedAt);
    var db1 := Transact(rules, db, game, mark, us);
    match TransactAnswer(rules, db, game, mark, us)
    case ReadyGame(row) =>
      if !row.status.Ready? then (db1, GoesOn(None)) else StartRoom(rules, Run(rules, db1, beforeStart), game, us)
    case Rejected(code, _) => (db1, Stops(Refused(code)))
    case _ => (db1, Stops(RoomFailed))
  }

  function ShowRoom(db: Db, game: GameId, guest: GuestId, started: Option<StartedGame>, viewedAt: int): RoomAnswer {
    if game !in db.games then Refused(GameNotFound)
    else if db.games[game].ColorOf(guest).None? then Refused(NotAPlayer)
    else
      match ViewOf(db.games[game].game, viewedAt)
      case Err(_) => Refused(GameStateCorrupt)
      case Ok(clocks) => RoomReady(started, RoomView(db.games[game], clocks))
  }

  /** The call up to its answer. */
  function ReadyRoom(
    rules: Rules, db: Db, game: GameId, guest: GuestId, expectedVersion: int, observedAt: int, us: nat, viewedAt: int,
    others: Others): (Db, RoomAnswer)
  {
    var begun := MarkAndStart(rules, db, game, guest, expectedVersion, observedAt, us, others.beforeStart);
    match begun.1
    case Stops(answer) => (begun.0, answer)
    case GoesOn(started) =>
      var now := Run(rules, begun.0, others.beforeView);
      (now, ShowRoom(now, game, guest, started, viewedAt))
  }

  function DeadlineOf(db: Db, game: GameId): Option<int> {
    if game in db.games then FindDeadline(db.games[game]) else None
  }

  /** The timers after scheduling a game from start to end. */
  ghost function Scheduled(s: D.State, game: GameId, deadline: Option<int>, now: int): D.State {
    D.Finish(D.Begin(s, game, 0), s.nextId, deadline, now)
  }

  class Room {
    const store: Store
    const cache: Cache
    const deadlines: D.Service

    constructor (store: Store, cache: Cache, deadlines: D.Service)
      ensures this.store == store && this.cache == cache && this.deadlines == deadlines
    {
      this.store := store;
      this.cache := cache;
      this.deadlines := deadlines;
    }

    method Ready(
      game: GameId, guest: GuestId, expectedVersion: int, observedAt: int, us: nat, viewedAt: int, others: Others,
      now: int)
      returns (answer: RoomAnswer)
      modifies store, cache`snapshots, deadlines
      ensures var r := ReadyRoom(
                store.rules, old(store.Contents()), game, guest, expectedVersion, observedAt, us, viewedAt, others);
              && answer == r.1
              && store.Contents() ==
                 (if answer.RoomReady? then Run(store.rules, r.0, others.beforeDeadline) else r.0)
      ensures deadlines.View() ==
              if answer.RoomReady? then Scheduled(old(deadlines.View()), game, DeadlineOf(store.Contents(), game), now)
              else old(deadlines.View())
      ensures var begun := MarkAndStart(
                store.rules, old(store.Contents()), game, guest, expectedVersion, observedAt, us, others.beforeStart);
              cache.snapshots ==
              if begun.1.GoesOn? && begun.1.started.Some? then old(cache.snapshots) - {game} else old(cache.snapshots)
    {
      var progress := Begin(game, guest, expectedVersion, observedAt, us, others.beforeStart);
      if progress.Stops? {
        return progress.answer;
      }
      store.Await(others.beforeView);
      answer := Show(game, guest, progress.started, viewedAt);
      if answer.RoomReady? {
        Schedule(game, others.beforeDeadline, now);
      }
    }

    /** The next deadline of the game is read and a timer armed for it. */
    method Schedule(game: GameId, beforeDeadline: seq<Call>, now: int)
      modifies store, deadlines
      ensures store.Contents() == Run(store.rules, old(store.Contents()), beforeDeadline)
      ensures deadlines.View() == Scheduled(old(deadlines.View()), game, DeadlineOf(store.Contents(), game), now)
    {
      var call := deadlines.BeginSchedule(game, 0);
      store.Await(beforeDeadline);
      var deadline := if game in store.games then FindDeadline(store.games[game]) else None;
      deadlines.FinishSchedule(call, deadline, now);
    }

    /** Marks the player ready and starts a game that this has made ready; the cached snapshot
        goes with a start. */
    method Begin(
      game: GameId, guest: GuestId, expectedVersion: int, observedAt: int, us: nat, beforeStart: seq<Call>)
      returns (progress: Progress)
      modifies store, cache`snapshots
      ensures (store.Contents(), progress) ==
              MarkAndStart(
                store.rules, old(store.Contents()), game, guest, expectedVersion, observedAt, us, beforeStart)
      ensures cache.snapshots ==
              if progress.GoesOn? && progress.started.Some? then old(cache.snapshots) - {game} else old(cache.snapshots)
    {
      var marked := store.MarkGameReady(game, guest, expectedVersion, observedAt, us);
      if marked.Rejected? {
        return Stops(Refused(marked.code));
      } else if !marked.ReadyGame? {
        return Stops(RoomFailed);
      }
      if !marked.ready.status.Ready? {
        return GoesOn(None);
      }
      store.Await(beforeStart);
      progress := Start(game, us);
    }

    method Start(game: GameId, us: nat) returns (progress: Progress)
      modifies store, cache`snapshots
      ensures (store.Contents(), progress) == StartRoom(store.rules, old(store.Contents()), game, us)
      ensures cache.snapshots ==
              if progress.GoesOn? && progress.started.Some? then old(cache.snapshots) - {game} else old(cache.snapshots)
    {
      var found := store.StartGameIfReady(game, us);
      if !found.FoundGame? {
        return Stops(RoomFailed);
      }
      if !found.started {
        return GoesOn(None);
      }
      if found.found.startedAt.None? {
        return Stops(Refused(GameStateCorrupt));
      }
      cache.DropSnapshot(game);
      return GoesOn(AnnouncedStart(found.found));
    }

    method Show(game: GameId, guest: GuestId, started: Option<StartedGame>, viewedAt: int) returns (answer: RoomAnswer)
      ensures answer == ShowRoom(store.Contents(), game, guest, started, viewedAt)
    {
      if game !in store.games {
        return Refused(GameNotFound);
      }
      var agg := store.games[game];
      if agg.ColorOf(guest).None? {
        return Refused(NotAPlayer);
      }
      var clocks := ViewOf(agg.game, viewedAt);
      answer := if clocks.Err? then Refused(GameStateCorrupt) else RoomReady(started, RoomView(agg, clocks.value));
    }
  }

  // ----- what a readiness call does -----

  /** What marking writes: the player is connected and joined, nothing else of the players, and
      the game becomes READY exactly when it was waiting for this player alone. */
  predicate MarksReady(before: Aggregate, after: Aggregate, guest: GuestId, observedAt: int) {
    && before.ColorOf(guest).Some?
    && var color := before.ColorOf(guest).value;
    && after.Player(color) == before.Player(color).(
         connectedAt := Some(observedAt), joinedAt := Some(before.Player(color).joinedAt.GetOr(observedAt)))
    && after.Player(color.Opposite()) == before.Player(color.Opposite())
    && after.moves == before.moves && after.commands == before.commands
    && after.game == (
         if before.game.status.WaitingForPlayers? && before.Player(color.Opposite()).joinedAt.Some?
         then before.game.(status := Ready, version := before.game.version + 1) else before.game)
  }

  /** A start, from the store as the start finds it: made and announced with full clocks exactly
      if the game is READY, else nothing changes. */
  predicate StartsIfReady(db: Db, after: Db, game: GameId, us: nat, started: Option<StartedGame>) {
    && game in db.games && game in after.games
    && (started.Some? <==> db.games[game].game.status.Ready?)
    && (started.None? ==> after == db)
    && (started.Some? ==>
          var before, row := db.games[game].game, after.games[game].game;
          && row.status.InProgress? && row.startedAt == row.turnStartedAt == Some(Millis(us))
          && started.value == StartedGame(
               GameplayClock(before.timeInitialMs, before.timeInitialMs, Some(White), Millis(us)),
               before.version + 1, before.initialFen))
  }

  lemma MarkedReady(agg: Aggregate, guest: GuestId, expectedVersion: int, observedAt: int)
    requires RowOk(agg.game) && PlayersOk(agg)
    ensures var plan := PlanMarkReady(agg, guest, expectedVersion, observedAt);
            plan.response.ReadyGame? ==>
              && plan.response.ready == Execute(agg, plan).game
              && MarksReady(agg, Execute(agg, plan), guest, observedAt)
  {
  }

  lemma StartPlanned(agg: Aggregate, us: nat)
    requires RowOk(agg.game) && ClocksOk(agg.game, agg.moves)
    ensures var plan := PlanStart(agg, us);
            && (plan.response.FoundGame? <==> LockGameClock(agg.game, us).Some?)
            && (plan.response.FoundGame? ==>
                  && plan.response.started == agg.game.status.Ready?
                  && (if plan.response.started then
                        && agg.game.whiteClockMs == agg.game.blackClockMs == agg.game.timeInitialMs
                        && plan.response.found == Execute(agg, plan).game
                        && plan.response.found == agg.game.(
                             startedAt := Some(Millis(us)), status := InProgress, turnStartedAt := Some(Millis(us)),
                             version := agg.game.version + 1)
                      else plan == ReadOnly(plan.response)))
  {
  }

  /** A start goes on exactly if its locking statement succeeds. */
  lemma StartRoomStarts(rules: Rules, db: Db, game: GameId, us: nat)
    requires DbOk(rules, db) && game in db.games
    ensures var r := StartRoom(rules, db, game, us);
            && (r.1.GoesOn? <==> LockGameClock(db.games[game].game, us).Some?)
            && (r.1.GoesOn? ==> StartsIfReady(db, r.0, game, us, r.1.started))
  {
    assert GameOk(rules, db, game);
    var plan := PlanStart(db.games[game], us);
    StartPlanned(db.games[game], us);
    if plan.response.FoundGame? && !plan.response.started {
      ReadOnlyCommit(db, game, plan.response);
    }
  }

  /** A player of a consistent store is always shown its game. */
  lemma PlayersAreShown(
    rules: Rules, db: Db, game: GameId, guest: GuestId, started: Option<StartedGame>, viewedAt: int)
    requires DbOk(rules, db) && game in db.games && db.games[game].ColorOf(guest).Some?
    ensures var answer := ShowRoom(db, game, guest, started, viewedAt);
            && answer.RoomReady? && answer.started == started && answer.view.agg == db.games[game]
            && ViewOf(db.games[game].game, viewedAt) == Ok(answer.view.clocks)
  {
    assert GameOk(rules, db, game);
    ViewNeverFails(rules, db.games[game], viewedAt);
  }

  /** Marking goes on from the rows it leaves. */
  lemma MarkedGoesOn(
    rules: Rules, db: Db, game: GameId, guest: GuestId, expectedVersion: int, observedAt: int, us: nat,
    beforeStart: seq<Call>)
    requires DbOk(rules, db) && game in db.games
    ensures var mark := MarkReady(guest, expectedVersion, observedAt);
            var marked := Transact(rules, db, game, mark, us);
            var begun := MarkAndStart(rules, db, game, guest, expectedVersion, observedAt, us, beforeStart);
            if !TransactAnswer(rules, db, game, mark, us).ReadyGame? then begun.1.Stops? && !begun.1.answer.RoomReady?
            else
              && MarksReady(db.games[game], marked.games[game], guest, observedAt)
              && begun == if marked.games[game].game.status.Ready?
                          then StartRoom(rules, Run(rules, marked, beforeStart), game, us) else (marked, GoesOn(None))
  {
    assert GameOk(rules, db, game);
    MarkedReady(db.games[game], guest, expectedVersion, observedAt);
  }

  lemma StartRoomKeeps(rules: Rules, db: Db, game: GameId, us: nat)
    requires rules.Faithful() && DbOk(rules, db)
    ensures DbOk(rules, StartRoom(rules, db, game, us).0) && DbGrows(db, StartRoom(rules, db, game, us).0)
  {
    TransactKeeps(rules, db, game, StartIfReady, us);
  }

  lemma MarkAndStartKeeps(
    rules: Rules, db: Db, game: GameId, guest: GuestId, expectedVersion: int, observedAt: int, us: nat,
    beforeStart: seq<Call>)
    requires rules.Faithful() && DbOk(rules, db) && game in db.games
    ensures var begun := MarkAndStart(rules, db, game, guest, expectedVersion, observedAt, us, beforeStart);
            begun.1.GoesOn? ==> DbOk(rules, begun.0) && DbGrows(db, begun.0)
  {
    var mark := MarkReady(guest, expectedVersion, observedAt);
    var marked := Transact(rules, db, game, mark, us);
    var left := Run(rules, marked, beforeStart);
    TransactKeeps(rules, db, game, mark, us);
    RunIsSound(rules, marked, beforeStart);
    DbGrowsIsTransitive(db, marked, left);
    MarkedGoesOn(rules, db, game, guest, expectedVersion, observedAt, us, beforeStart);
    BegunGrows(
      rules, db, marked, left, game, us,
      MarkAndStart(rules, db, game, guest, expectedVersion, observedAt, us, beforeStart));
  }

  lemma BegunGrows(rules: Rules, db: Db, marked: Db, left: Db, game: GameId, us: nat, begun: (Db, Progress))
    requires rules.Faithful() && DbOk(rules, marked) && DbOk(rules, left)
    requires DbGrows(db, marked) && DbGrows(db, left)
    requires begun.1.GoesOn? ==> begun.0 == marked || begun == StartRoom(rules, left, game, us)
    ensures begun.1.GoesOn? ==> DbOk(rules, begun.0) && DbGrows(db, begun.0)
  {
    StartRoomKeeps(rules, left, game, us);
    DbGrowsIsTransitive(db, left, StartRoom(rules, left, game, us).0);
  }

  /** The call goes on past its first two steps. */
  predicate Begins(rules: Rules, db: Db, marked: Db, left: Db, game: GameId, mark: Request, us: nat) {
    && game in marked.games && game in left.games
    && TransactAnswer(rules, db, game, mark, us).ReadyGame?
    && (marked.games[game].game.status.Ready? ==> LockGameClock(left.games[game].game, us).Some?)
  }

  /** A call goes on exactly if its mark is accepted and, when that makes the game ready, the
      locking statement of the start succeeds. */
  lemma BeginsExactly(
    rules: Rules, db: Db, game: GameId, guest: GuestId, expectedVersion: int, observedAt: int, us: nat,
    beforeStart: seq<Call>)
    requires rules.Faithful() && DbOk(rules, db) && game in db.games
    ensures var mark := MarkReady(guest, expectedVersion, observedAt);
            var marked := Transact(rules, db, game, mark, us);
            var begun := MarkAndStart(rules, db, game, guest, expectedVersion, observedAt, us, beforeStart);
            && (begun.1.GoesOn? <==> Begins(rules, db, marked, Run(rules, marked, beforeStart), game, mark, us))
            && (begun.1.Stops? ==> !begun.1.answer.RoomReady?)
  {
    var mark := MarkReady(guest, expectedVersion, observedAt);
    var marked := Transact(rules, db, game, mark, us);
    TransactKeeps(rules, db, game, mark, us);
    RunIsSound(rules, marked, beforeStart);
    MarkedGoesOn(rules, db, game, guest, expectedVersion, observedAt, us, beforeStart);
    StartBegins(
      rules, db, marked, Run(rules, marked, beforeStart), game, mark, us,
      MarkAndStart(rules, db, game, guest, expectedVersion, observedAt, us, beforeStart));
  }

  lemma StartBegins(
    rules: Rules, db: Db, marked: Db, left: Db, game: GameId, mark: Request, us: nat, begun: (Db, Progress))
    requires DbOk(rules, left) && game in marked.games && game in left.games
    requires if !TransactAnswer(rules, db, game, mark, us).ReadyGame? then begun.1.Stops? && !begun.1.answer.RoomReady?
             else
               begun == if marked.games[game].game.status.Ready? then StartRoom(rules, left, game, us)
                        else (marked, GoesOn(None))
    ensures begun.1.GoesOn? <==> Begins(rules, db, marked, left, game, mark, us)
    ensures begun.1.Stops? ==> !begun.1.answer.RoomReady?
  {
    StartRoomStarts(rules, left, game, us);
  }

  /** A call that goes on is always answered with the game as it stands by then. */
  predicate Answered(
    rules: Rules, begun: (Db, Progress), r: (Db, RoomAnswer), game: GameId, viewedAt: int, others: Others)
  {
    if begun.1.Stops? then r == (begun.0, begun.1.answer)
    else
      && r.0 == Run(rules, begun.0, others.beforeView) && game in r.0.games
      && r.1.RoomReady? && r.1.started == begun.1.started && r.1.view.agg == r.0.games[game]
      && ViewOf(r.0.games[game].game, viewedAt) == Ok(r.1.view.clocks)
  }

  lemma BegunIsAnswered(
    rules: Rules, db: Db, game: GameId, guest: GuestId, expectedVersion: int, observedAt: int, us: nat, viewedAt: int,
    others: Others)
    requires rules.Faithful() && DbOk(rules, db) && game in db.games
    ensures var begun := MarkAndStart(rules, db, game, guest, expectedVersion, observedAt, us, others.beforeStart);
            var r := ReadyRoom(rules, db, game, guest, expectedVersion, observedAt, us, viewedAt, others);
            Answered(rules, begun, r, game, viewedAt, others)
  {
    var begun := MarkAndStart(rules, db, game, guest, expectedVersion, observedAt, us, others.beforeStart);
    if begun.1.GoesOn? {
      MarkAndStartKeeps(rules, db, game, guest, expectedVersion, observedAt, us, others.beforeStart);
      MarkedGoesOn(rules, db, game, guest, expectedVersion, observedAt, us, others.beforeStart);
      RunIsSound(rules, begun.0, others.beforeView);
      PlayersRemain(db, begun.0, Run(rules, begun.0, others.beforeView), game, guest);
      PlayersAreShown(rules, Run(rules, begun.0, others.beforeView), game, guest, begun.1.started, viewedAt);
    }
  }

  lemma PlayersRemain(a: Db, b: Db, c: Db, game: GameId, guest: GuestId)
    requires DbGrows(a, b) && DbGrows(b, c) && game in a.games
    ensures game in c.games && c.games[game].ColorOf(guest) == a.games[game].ColorOf(guest)
  {
    assert Grows(a.games[game], b.games[game]) && Grows(b.games[game], c.games[game]);
  }

  /** A call succeeds exactly if its mark is accepted and, when that makes the game ready, the
      locking statement of the start succeeds, whatever other requests do in between; and then
      it shows the game as it stands. */
  lemma ReadySucceedsExactly(
    rules: Rules, db: Db, game: GameId, guest: GuestId, expectedVersion: int, observedAt: int, us: nat, viewedAt: int,
    others: Others)
    requires rules.Faithful() && DbOk(rules, db) && game in db.games
    ensures var mark := MarkReady(guest, expectedVersion, observedAt);
            var marked := Transact(rules, db, game, mark, us);
            var r := ReadyRoom(rules, db, game, guest, expectedVersion, observedAt, us, viewedAt, others);
            && (r.1.RoomReady? <==> Begins(rules, db, marked, Run(rules, marked, others.beforeStart), game, mark, us))
            && (r.1.RoomReady? ==>
                  && game in r.0.games && r.1.view.agg == r.0.games[game]
                  && ViewOf(r.0.games[game].game, viewedAt) == Ok(r.1.view.clocks))
  {
    BeginsExactly(rules, db, game, guest, expectedVersion, observedAt, us, others.beforeStart);
    BegunIsAnswered(rules, db, game, guest, expectedVersion, observedAt, us, viewedAt, others);
  }

  /** What the two steps of a call that goes on do: the mark is written; a game found READY is
      then started, any other is left as it was.  Neither leaves the game READY. */
  predicate MarksAndStarts(
    rules: Rules, db: Db, marked: Db, left: Db, begun: (Db, Progress), game: GameId, guest: GuestId, observedAt: int,
    us: nat)
    requires game in db.games && begun.1.GoesOn?
  {
    && game in marked.games && game in begun.0.games
    && MarksReady(db.games[game], marked.games[game], guest, observedAt)
    && (if marked.games[game].game.status.Ready? then StartsIfReady(left, begun.0, game, us, begun.1.started)
        else begun == (marked, GoesOn(None)))
    && !begun.0.games[game].game.status.Ready?
  }

  /** Whatever runs between marking and starting, a game that was READY when it was to be
      started is started by this call, with full clocks and announced; a game in any other
      state is left as it was.  So READY never outlasts a call that goes on. */
  lemma ReadyNeverStalls(
    rules: Rules, db: Db, game: GameId, guest: GuestId, expectedVersion: int, observedAt: int, us: nat,
    beforeStart: seq<Call>)
    requires rules.Faithful() && DbOk(rules, db) && game in db.games
    requires MarkAndStart(rules, db, game, guest, expectedVersion, observedAt, us, beforeStart).1.GoesOn?
    ensures var marked := Transact(rules, db, game, MarkReady(guest, expectedVersion, observedAt), us);
            var begun := MarkAndStart(rules, db, game, guest, expectedVersion, observedAt, us, beforeStart);
            MarksAndStarts(rules, db, marked, Run(rules, marked, beforeStart), begun, game, guest, observedAt, us)
  {
    var mark := MarkReady(guest, expectedVersion, observedAt);
    var marked := Transact(rules, db, game, mark, us);
    TransactKeeps(rules, db, game, mark, us);
    RunIsSound(rules, marked, beforeStart);
    MarkedGoesOn(rules, db, game, guest, expectedVersion, observedAt, us, beforeStart);
    if marked.games[game].game.status.Ready? {
      StartRoomStarts(rules, Run(rules, marked, beforeStart), game, us);
    }
  }

  /** Scheduling arms the game's timer for its deadline, and leaves none when there is none: so
      after a successful call a timer is live exactly while the game waits or runs. */
  lemma ScheduledExactly(rules: Rules, s: D.State, db: Db, game: GameId, now: int)
    requires DbOk(rules, db) && game in db.games
    ensures var after := Scheduled(s, game, DeadlineOf(db, game), now);
            var agg := db.games[game];
            && (game in after.timers <==> agg.game.status.WaitingForPlayers? || agg.game.status.Running())
            && (game in after.timers ==>
                  && after.timers[game] in after.armed
                  && after.armed[after.timers[game]].game == game
                  && after.armed[after.timers[game]].dueAt == now + D.Delay(0, FindDeadline(agg).value, now))
  {
    assert GameOk(rules, db, game);
    DeadlineExistsExactly(rules, db.games[game]);
  }

  /** Readiness is refused exactly to strangers, to finished games, and at a wrong version,
      unless the player had already joined a game that both have joined. */
  lemma ReadyIsAcceptedExactly(agg: Aggregate, guest: GuestId, expectedVersion: int, observedAt: int)
    requires RowOk(agg.game) && PlayersOk(agg)
    ensures PlanMarkReady(agg, guest, expectedVersion, observedAt).response.ReadyGame? <==>
              && agg.ColorOf(guest).Some? && !agg.game.status.Terminal()
              && (expectedVersion == agg.game.version || (agg.white.joinedAt.Some? && agg.black.joinedAt.Some?))
  {
  }
}
