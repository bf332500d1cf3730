/** The durable store: many games, the unique match index, the active-game assignments and
    the guest sessions; allocation; and whole runs of transactions. */
module GameDatabase {
  import opened Domain
  import opened GameClock
  import opened ChessEngine
  import opened GameRows
  import opened GameInvariant
  import opened GameMoves
  import opened GameHistory
  import opened GameCommands

  datatype Db = Db(
    games: map<GameId, Aggregate>,
    matchIndex: map<MatchId, GameId>,
    assignments: map<GuestId, GameId>,
    sessions: map<GuestId, Session>)

  datatype AllocateGame = AllocateGame(
    gameId: GameId,
    matchId: MatchId,
    white: GuestId,
    black: GuestId,
    initialMs: int,
    incrementMs: int,
    joinDeadlineAt: int,
    observedAt: int)

  datatype AllocationResult =
    | Allocated(allocation: Aggregate)
    | AlreadyInGame
    | NotEligible
    | Mismatch
    | AllocationFailed

  // ----- transactions on the store -----

  /** Every assignment of one game removed. */
  function WithoutGame(assignments: map<GuestId, GameId>, game: GameId): map<GuestId, GameId> {
    map guest | guest in assignments && assignments[guest] != game :: assignments[guest]
  }

  /** One game's plan carried out, its assignments removed if the plan drops them. */
  function Commit(db: Db, game: GameId, plan: Plan): Db
    requires game in db.games
  {
    db.(games := db.games[game := Execute(db.games[game], plan)],
        assignments := if plan.dropAssignments then WithoutGame(db.assignments, game) else db.assignments)
  }

  function Transact(rules: Rules, db: Db, game: GameId, request: Request, us: nat): Db {
    if game in db.games then Commit(db, game, PlanFor(rules, db.games[game], request, us)) else db
  }

  function TransactAnswer(rules: Rules, db: Db, game: GameId, request: Request, us: nat): Response {
    if game in db.games then Answer(rules, db.games[game], request, us)
    else if IsCommand(request) || request.MarkReady? || request.StartIfReady? then Rejected(GameNotFound, None)
    else NoEvent
  }

  predicate Eligible(db: Db, guest: GuestId, observedAt: int) {
    && guest in db.sessions
    && db.sessions[guest].revokedAt.None?
    && db.sessions[guest].expiresAt > observedAt
  }

  /** The reservation names this very game and these two players, in either colour. */
  predicate MatchesReservation(agg: Aggregate, input: AllocateGame) {
    agg.game.id == input.gameId && {agg.white.guest, agg.black.guest} == {input.white, input.black}
  }

  /** The row constraints the insert itself is checked against. */
  predicate Insertable(db: Db, input: AllocateGame) {
    && input.gameId !in db.games && input.matchId !in db.matchIndex
    && 0 < input.initialMs <= MAX_INT4 && 0 <= input.incrementMs <= MAX_INT4
  }

  function NewGame(rules: Rules, input: AllocateGame): Aggregate {
    FreshAggregate(rules, input.gameId, input.matchId, input.white, input.black,
                   input.initialMs, input.incrementMs, input.joinDeadlineAt)
  }

  function AllocateAnswer(rules: Rules, db: Db, input: AllocateGame): AllocationResult {
    if input.white == input.black then Mismatch
    else if input.matchId in db.matchIndex && db.matchIndex[input.matchId] in db.games then
      var existing := db.games[db.matchIndex[input.matchId]];
      if MatchesReservation(existing, input) then Allocated(existing) else Mismatch
    else if !Eligible(db, input.white, input.observedAt) || !Eligible(db, input.black, input.observedAt) then
      NotEligible
    else if input.white in db.assignments || input.black in db.assignments then AlreadyInGame
    else if !Insertable(db, input) then AllocationFailed
    else Allocated(NewGame(rules, input))
  }

  /** The rows a successful first allocation inserts. */
  function Insert(db: Db, game: Aggregate): Db {
    db.(games := db.games[game.game.id := game],
        matchIndex := db.matchIndex[game.game.matchId := game.game.id],
        assignments := db.assignments[game.white.guest := game.game.id][game.black.guest := game.game.id])
  }

  /** The request is the first for its match, and it is granted. */
  predicate Inserts(rules: Rules, db: Db, input: AllocateGame) {
    AllocateAnswer(rules, db, input).Allocated? && input.matchId !in db.matchIndex
  }

  function Allocate(rules: Rules, db: Db, input: AllocateGame): Db {
    if Inserts(rules, db, input) then Insert(db, NewGame(rules, input)) else db
  }

  // ----- the invariant of the store -----

  ghost predicate GameOk(rules: Rules, db: Db, g: GameId)
    requires g in db.games
  {
    db.games[g].game.id == g && AggOk(rules, db.games[g])
  }

  ghost predicate GamesOk(rules: Rules, db: Db) {
    forall g {:trigger GameOk(rules, db, g)} :: g in db.games ==> GameOk(rules, db, g)
  }

  predicate IndexOk(db: Db) {
    && (forall m :: m in db.matchIndex ==> db.matchIndex[m] in db.games && db.games[db.matchIndex[m]].game.matchId == m)
    && (forall g :: g in db.games ==>
          db.games[g].game.matchId in db.matchIndex && db.matchIndex[db.games[g].game.matchId] == g)
  }

  predicate HasEnded(db: Db, game: GameId) { game in db.games && db.games[game].game.status.Terminal() }

  /** The guest plays this game and the game is not over. */
  predicate PlaysActive(db: Db, guest: GuestId, game: GameId) {
    game in db.games && !db.games[game].game.status.Terminal() && db.games[game].ColorOf(guest).Some?
  }

  ghost predicate AssignmentsOk(db: Db) {
    && (forall guest :: guest in db.assignments ==> PlaysActive(db, guest, db.assignments[guest]))
    && (forall guest, game :: PlaysActive(db, guest, game) ==> guest in db.assignments && db.assignments[guest] == game)
  }

  ghost predicate DbOk(rules: Rules, db: Db) {
    GamesOk(rules, db) && IndexOk(db) && AssignmentsOk(db)
  }

  /** The store only grows: games stay, each only grows, and the match index is never rewritten. */
  ghost predicate DbGrows(a: Db, b: Db) {
    && (forall g :: g in a.games ==> g in b.games && Grows(a.games[g], b.games[g]))
    && (forall m :: m in a.matchIndex ==> m in b.matchIndex && b.matchIndex[m] == a.matchIndex[m])
  }

  const EmptyDb: Db := Db(map[], map[], map[], map[])

  lemma EmptyDbOk(rules: Rules)
    ensures DbOk(rules, EmptyDb)
  {
  }

  /** A plan that keeps its own game keeps the store. */
  lemma CommitKeeps(rules: Rules, db: Db, game: GameId, plan: Plan)
    requires DbOk(rules, db) && game in db.games
    requires StepOk(db.games[game], plan) && AggOk(rules, Execute(db.games[game], plan))
    ensures DbOk(rules, Commit(db, game, plan)) && DbGrows(db, Commit(db, game, plan))
  {
    var after := Commit(db, game, plan);
    CommitKeepsTables(db, game, plan);
    assert GameOk(rules, db, game);
    forall g | g in after.games
      ensures GameOk(rules, after, g)
    {
      assert g == game || GameOk(rules, db, g);
    }
    CommitGrows(db, game, plan);
  }

  lemma CommitGrows(db: Db, game: GameId, plan: Plan)
    requires game in db.games && Grows(db.games[game], Execute(db.games[game], plan))
    ensures DbGrows(db, Commit(db, game, plan))
  {
    forall g | g in db.games
      ensures Grows(db.games[g], Commit(db, game, plan).games[g])
    {
    }
  }

  lemma CommitKeepsTables(db: Db, game: GameId, plan: Plan)
    requires IndexOk(db) && AssignmentsOk(db) && game in db.games
    requires StepOk(db.games[game], plan)
    ensures IndexOk(Commit(db, game, plan)) && AssignmentsOk(Commit(db, game, plan))
  {
    var after := Commit(db, game, plan);
    forall guest, g | PlaysActive(after, guest, g)
      ensures guest in after.assignments && after.assignments[guest] == g
    {
      assert PlaysActive(db, guest, g);
    }
    forall guest | guest in after.assignments
      ensures PlaysActive(after, guest, after.assignments[guest])
    {
      assert PlaysActive(db, guest, db.assignments[guest]);
    }
  }

  /** What one transaction does to its own game. */
  lemma PlanIsSound(rules: Rules, db: Db, game: GameId, request: Request, us: nat)
    requires rules.Faithful() && GamesOk(rules, db) && game in db.games
    ensures var plan := PlanFor(rules, db.games[game], request, us);
            StepOk(db.games[game], plan) && AggOk(rules, Execute(db.games[game], plan))
  {
    assert GameOk(rules, db, game);
    ApplyKeeps(rules, db.games[game], request, us);
    StepGrows(rules, db.games[game], request, us);
  }

  lemma TransactKeeps(rules: Rules, db: Db, game: GameId, request: Request, us: nat)
    requires rules.Faithful() && DbOk(rules, db)
    ensures DbOk(rules, Transact(rules, db, game, request, us))
    ensures DbGrows(db, Transact(rules, db, game, request, us))
  {
    if game in db.games {
      PlanIsSound(rules, db, game, request, us);
      CommitKeeps(rules, db, game, PlanFor(rules, db.games[game], request, us));
    }
  }

  lemma InsertKeeps(rules: Rules, db: Db, game: Aggregate)
    requires DbOk(rules, db) && AggOk(rules, game) && !game.game.status.Terminal()
    requires game.game.id !in db.games && game.game.matchId !in db.matchIndex
    requires game.white.guest !in db.assignments && game.black.guest !in db.assignments
    ensures DbOk(rules, Insert(db, game)) && DbGrows(db, Insert(db, game))
  {
    var after := Insert(db, game);
    InsertKeepsTables(db, game);
    forall g | g in after.games
      ensures GameOk(rules, after, g)
    {
      assert g == game.game.id || GameOk(rules, db, g);
    }
    InsertGrows(db, game);
  }

  lemma InsertGrows(db: Db, game: Aggregate)
    requires game.game.id !in db.games && game.game.matchId !in db.matchIndex
    ensures DbGrows(db, Insert(db, game))
  {
  }

  lemma InsertKeepsTables(db: Db, game: Aggregate)
    requires IndexOk(db) && AssignmentsOk(db) && !game.game.status.Terminal()
    requires game.game.id !in db.games && game.game.matchId !in db.matchIndex
    requires game.white.guest !in db.assignments && game.black.guest !in db.assignments
    ensures IndexOk(Insert(db, game)) && AssignmentsOk(Insert(db, game))
  {
    var after := Insert(db, game);
    forall guest, g | PlaysActive(after, guest, g)
      ensures guest in after.assignments && after.assignments[guest] == g
    {
      if g != game.game.id {
        assert PlaysActive(db, guest, g);
      }
    }
    forall guest | guest in after.assignments
      ensures PlaysActive(after, guest, after.assignments[guest])
    {
      if guest in db.assignments {
        assert PlaysActive(db, guest, db.assignments[guest]);
      }
    }
  }

  lemma AllocateKeeps(rules: Rules, db: Db, input: AllocateGame)
    requires rules.Faithful() && DbOk(rules, db)
    ensures DbOk(rules, Allocate(rules, db, input)) && DbGrows(db, Allocate(rules, db, input))
  {
    if Inserts(rules, db, input) {
      FreshAggregateOk(rules, input.gameId, input.matchId, input.white, input.black,
                       input.initialMs, input.incrementMs, input.joinDeadlineAt);
      InsertKeeps(rules, db, NewGame(rules, input));
    } else {
      SameGamesGrow(db, db);
    }
  }

  lemma SameGamesGrow(db: Db, after: Db)
    requires after.games == db.games && after.matchIndex == db.matchIndex
    ensures DbGrows(db, after)
  {
  }

  // ----- whole runs -----

  datatype Call =
    | AllocateCall(input: AllocateGame)
    | TransactCall(game: GameId, request: Request, us: nat)
    | SessionCall(guest: GuestId, session: Session)
    | CleanupCall(guest: GuestId, cutoff: int)

  /** The guest plays no game, finished or not, and has none assigned; moves and commands belong
      to players. */
  predicate OwnsNothing(db: Db, guest: GuestId) {
    guest !in db.assignments && forall g :: g in db.games ==> db.games[g].ColorOf(guest).None?
  }

  /** An expired session that owns no game rows is removed. */
  function Cleanup(db: Db, guest: GuestId, cutoff: int): Db {
    if guest in db.sessions && db.sessions[guest].expiresAt < cutoff && OwnsNothing(db, guest)
    then db.(sessions := db.sessions - {guest})
    else db
  }

  function Step(rules: Rules, db: Db, call: Call): Db {
    match call
    case AllocateCall(input) => Allocate(rules, db, input)
    case TransactCall(game, request, us) => Transact(rules, db, game, request, us)
    case SessionCall(guest, session) => db.(sessions := db.sessions[guest := session])
    case CleanupCall(guest, cutoff) => Cleanup(db, guest, cutoff)
  }

  function Run(rules: Rules, db: Db, calls: seq<Call>): Db {
    if calls == [] then db
    else Step(rules, Run(rules, db, calls[..|calls| - 1]), calls[|calls| - 1])
  }

  lemma DbGrowsIsTransitive(a: Db, b: Db, c: Db)
    requires DbGrows(a, b) && DbGrows(b, c)
    ensures DbGrows(a, c)
  {
    forall g | g in a.games
      ensures g in c.games && Grows(a.games[g], c.games[g])
    {
      GrowsIsTransitive(a.games[g], b.games[g], c.games[g]);
    }
  }

  lemma StepIsSound(rules: Rules, db: Db, call: Call)
    requires rules.Faithful() && DbOk(rules, db)
    ensures DbOk(rules, Step(rules, db, call)) && DbGrows(db, Step(rules, db, call))
  {
    match call
    case AllocateCall(input) => AllocateKeeps(rules, db, input);
    case TransactCall(game, request, us) => TransactKeeps(rules, db, game, request, us);
    case SessionCall(guest, session) => SessionsAreApart(rules, db, db.sessions[guest := session]);
    case CleanupCall(guest, cutoff) => SessionsAreApart(rules, db, Cleanup(db, guest, cutoff).sessions);
  }

  lemma SessionsAreApart(rules: Rules, db: Db, sessions: map<GuestId, Session>)
    requires DbOk(rules, db)
    ensures var after := db.(sessions := sessions);
            DbOk(rules, after) && DbGrows(db, after)
  {
    var after := db.(sessions := sessions);
    forall g | g in after.games
      ensures GameOk(rules, after, g)
    {
      assert GameOk(rules, db, g);
    }
    SessionsLeaveTables(db, after);
    SameGamesGrow(db, after);
  }

  lemma SessionsLeaveTables(db: Db, after: Db)
    requires IndexOk(db) && AssignmentsOk(db)
    requires after == db.(sessions := after.sessions)
    ensures IndexOk(after) && AssignmentsOk(after)
  {
    forall other, g | PlaysActive(after, other, g)
      ensures other in after.assignments && after.assignments[other] == g
    {
      assert PlaysActive(db, other, g);
    }
    forall other | other in after.assignments
      ensures PlaysActive(after, other, after.assignments[other])
    {
      assert PlaysActive(db, other, db.assignments[other]);
    }
  }

  /** Every run, of any calls in any order, keeps the invariant and only grows the store. */
  lemma {:induction false} RunIsSound(rules: Rules, db: Db, calls: seq<Call>)
    requires rules.Faithful() && DbOk(rules, db)
    ensures DbOk(rules, Run(rules, db, calls)) && DbGrows(db, Run(rules, db, calls))
  {
    if calls != [] {
      var front := calls[..|calls| - 1];
      RunIsSound(rules, db, front);
      var before := Run(rules, db, front);
      StepIsSound(rules, before, calls[|calls| - 1]);
      DbGrowsIsTransitive(db, before, Run(rules, db, calls));
    }
  }

  lemma RunOne(rules: Rules, db: Db, call: Call)
    ensures Run(rules, db, [call]) == Step(rules, db, call)
  {
    assert [call][..0] == [];
  }

  lemma {:induction false} RunsCompose(rules: Rules, db: Db, first: seq<Call>, second: seq<Call>)
    ensures Run(rules, Run(rules, db, first), second) == Run(rules, db, first + second)
  {
    if second == [] {
      assert first + second == first;
    } else {
      var front := second[..|second| - 1];
      RunsCompose(rules, db, first, front);
      assert (first + second)[..|first + second| - 1] == first + front;
    }
  }

  // ----- what that means -----

  /** In every reachable store the assignments are exactly the pairs of a guest and the
      unfinished game it plays; so no guest is in two active games. */
  lemma AssignmentsAreExact(rules: Rules, calls: seq<Call>, guest: GuestId, game: GameId, other: GameId)
    requires rules.Faithful()
    ensures var db := Run(rules, EmptyDb, calls);
            && (PlaysActive(db, guest, game) <==> guest in db.assignments && db.assignments[guest] == game)
            && (PlaysActive(db, guest, game) && PlaysActive(db, guest, other) ==> game == other)
  {
    EmptyDbOk(rules);
    RunIsSound(rules, EmptyDb, calls);
  }

  /** A request routed by an assignment that was read earlier and has since gone changes
      nothing: the game it names has ended in between. */
  lemma StaleAssignmentIsHarmless(rules: Rules, db: Db, guest: GuestId, game: GameId, request: Request, us: nat)
    requires rules.Faithful() && DbOk(rules, db) && game in db.games && db.games[game].ColorOf(guest).Some?
    requires guest !in db.assignments || db.assignments[guest] != game
    ensures HasEnded(db, game)
    ensures Transact(rules, db, game, request, us) == db
    ensures NewEnding(TransactAnswer(rules, db, game, request, us)).None?
  {
    assert !PlaysActive(db, guest, game);
    PlanIsSound(rules, db, game, request, us);
    TerminalCommit(db, game, PlanFor(rules, db.games[game], request, us));
  }

  /** A sound plan leaves a store with that game over exactly as it is. */
  lemma TerminalCommit(db: Db, game: GameId, plan: Plan)
    requires game in db.games && StepOk(db.games[game], plan) && HasEnded(db, game)
    ensures Commit(db, game, plan) == db && NewEnding(plan.response).None?
  {
    assert db.games[game := db.games[game]] == db.games;
  }

  /** The match is taken by this very game. */
  predicate Holds(db: Db, matchId: MatchId, game: Aggregate) {
    && matchId in db.matchIndex && db.matchIndex[matchId] in db.games
    && SameIdentity(game, db.games[db.matchIndex[matchId]])
  }

  lemma AllocatedIsHeld(rules: Rules, db: Db, input: AllocateGame)
    requires IndexOk(db) && AllocateAnswer(rules, db, input).Allocated?
    ensures Holds(Allocate(rules, db, input), input.matchId, AllocateAnswer(rules, db, input).allocation)
    ensures MatchesReservation(AllocateAnswer(rules, db, input).allocation, input)
    ensures input.white != input.black
  {
  }

  /** From then on every allocation of the match inserts nothing, and is granted exactly when
      it names that game and its two players. */
  lemma HeldMatchAnswers(rules: Rules, db: Db, game: Aggregate, input: AllocateGame)
    requires Holds(db, input.matchId, game)
    ensures Allocate(rules, db, input) == db
    ensures AllocateAnswer(rules, db, input) ==
            if input.white != input.black && MatchesReservation(game, input)
            then Allocated(db.games[db.matchIndex[input.matchId]])
            else Mismatch
  {
  }

  /** All allocations of one match are about one game with its original colours, whatever runs
      in between: a repeat inserts nothing, and it is granted exactly when it names that game
      and those two players, in either colour. */
  lemma AllocationsOfOneMatchAgree(
    rules: Rules, db: Db, first: AllocateGame, calls: seq<Call>, again: AllocateGame)
    requires rules.Faithful() && DbOk(rules, db)
    requires first.matchId == again.matchId && AllocateAnswer(rules, db, first).Allocated?
    ensures var now := Run(rules, Allocate(rules, db, first), calls);
            && Allocate(rules, now, again) == now
            && (AllocateAnswer(rules, now, again).Allocated? <==>
                  first.gameId == again.gameId && {first.white, first.black} == {again.white, again.black})
            && (AllocateAnswer(rules, now, again).Allocated? ==>
                  SameIdentity(
                    AllocateAnswer(rules, db, first).allocation, AllocateAnswer(rules, now, again).allocation))
  {
    var taken := Allocate(rules, db, first);
    var game := AllocateAnswer(rules, db, first).allocation;
    AllocateKeeps(rules, db, first);
    RunIsSound(rules, taken, calls);
    var now := Run(rules, taken, calls);
    AllocatedIsHeld(rules, db, first);
    HeldStaysHeld(taken, now, first.matchId, game);
    HeldMatchAnswers(rules, now, game, again);
    SamePair(first.white, first.black, again.white, again.black);
  }

  lemma HeldStaysHeld(a: Db, b: Db, matchId: MatchId, game: Aggregate)
    requires Holds(a, matchId, game) && DbGrows(a, b)
    ensures Holds(b, matchId, game)
  {
    assert Grows(a.games[a.matchIndex[matchId]], b.games[a.matchIndex[matchId]]);
  }

  lemma SamePair(a: GuestId, b: GuestId, c: GuestId, d: GuestId)
    ensures {a, b} == {c, d} && a != b ==> c != d
  {
    if {a, b} == {c, d} && c == d {
      assert a in {c, d} && b in {c, d};
    }
  }

  /** How many times a run announces, for the first time, the end of one game. */
  function EndingsOf(rules: Rules, db: Db, calls: seq<Call>, game: GameId): nat {
    if calls == [] then 0
    else
      var front := calls[..|calls| - 1];
      EndingsOf(rules, db, front, game)
      + if AnnouncesEnd(rules, Run(rules, db, front), calls[|calls| - 1], game) then 1 else 0
  }

  predicate AnnouncesEnd(rules: Rules, db: Db, call: Call, game: GameId) {
    && call.TransactCall? && call.game == game
    && NewEnding(TransactAnswer(rules, db, game, call.request, call.us)).Some?
  }

  lemma StepEndsWhenAnnounced(rules: Rules, db: Db, call: Call, game: GameId)
    requires rules.Faithful() && DbOk(rules, db)
    ensures AnnouncesEnd(rules, db, call, game) <==> !HasEnded(db, game) && HasEnded(Step(rules, db, call), game)
    ensures HasEnded(db, game) ==> HasEnded(Step(rules, db, call), game)
  {
    match call
    case AllocateCall(input) => AllocationEndsNothing(rules, db, input, game);
    case TransactCall(g, request, us) =>
      if g in db.games {
        PlanIsSound(rules, db, g, request, us);
        CommitEnds(db, g, PlanFor(rules, db.games[g], request, us), game);
      }
    case SessionCall(_, _) =>
    case CleanupCall(_, _) =>
  }

  lemma AllocationEndsNothing(rules: Rules, db: Db, input: AllocateGame, game: GameId)
    ensures HasEnded(Allocate(rules, db, input), game) <==> HasEnded(db, game)
  {
  }

  lemma CommitEnds(db: Db, g: GameId, plan: Plan, game: GameId)
    requires g in db.games && StepOk(db.games[g], plan)
    ensures g == game && NewEnding(plan.response).Some? <==> !HasEnded(db, game) && HasEnded(Commit(db, g, plan), game)
    ensures HasEnded(db, game) ==> HasEnded(Commit(db, g, plan), game)
  {
  }

  /** From an empty store, each game's end is announced exactly once if it ended, else never. */
  lemma {:induction false} EndedExactlyOnce(rules: Rules, calls: seq<Call>, game: GameId)
    requires rules.Faithful()
    ensures EndingsOf(rules, EmptyDb, calls, game) == (if HasEnded(Run(rules, EmptyDb, calls), game) then 1 else 0)
  {
    if calls != [] {
      var front := calls[..|calls| - 1];
      EndedExactlyOnce(rules, front, game);
      EmptyDbOk(rules);
      RunIsSound(rules, EmptyDb, front);
      StepEndsWhenAnnounced(rules, Run(rules, EmptyDb, front), calls[|calls| - 1], game);
    }
  }

  /** Terminal games are frozen: whatever runs afterwards, game, players, moves and commands
      stay as they are, and no assignment to the game ever appears. */
  lemma TerminalGamesAreFrozen(rules: Rules, db: Db, calls: seq<Call>, game: GameId)
    requires rules.Faithful() && DbOk(rules, db) && HasEnded(db, game)
    ensures var after := Run(rules, db, calls);
            && game in after.games && after.games[game] == db.games[game]
            && forall guest :: guest in after.assignments ==> after.assignments[guest] != game
  {
    RunIsSound(rules, db, calls);
    var after := Run(rules, db, calls);
    forall guest | guest in after.assignments
      ensures after.assignments[guest] != game
    {
      assert PlaysActive(after, guest, after.assignments[guest]);
    }
  }

  /** Exactly-once over whole runs of the store: once accepted, a command retried under its
      id by its guest returns the stored answer as a duplicate and changes nothing. */
  lemma CommandsAreExactlyOnce(
    rules: Rules, db: Db, game: GameId, request: Request, us: nat, calls: seq<Call>, retry: Request, retryUs: nat)
    requires rules.Faithful() && DbOk(rules, db)
    requires IsCommand(request) && NewlyAccepted(TransactAnswer(rules, db, game, request, us))
    requires IsCommand(retry) && retry.Submit? == request.Submit?
    requires CommandId(retry) == CommandId(request) && CommandGuest(retry) == CommandGuest(request)
    ensures var now := Run(rules, Transact(rules, db, game, request, us), calls);
            && Transact(rules, now, game, retry, retryUs) == now
            && game in now.games
            && TransactAnswer(rules, now, game, retry, retryUs) ==
               if LockGameClock(now.games[game].game, retryUs).Some?
               then AsDuplicate(TransactAnswer(rules, db, game, request, us))
               else TransactionFailed
  {
    AcceptedIntoStore(rules, db, game, request, us);
    StoredOutlivesRun(
      rules, Transact(rules, db, game, request, us), game, request, TransactAnswer(rules, db, game, request, us),
      calls, retry, retryUs);
  }

  /** Once the game has ended, as it has when the command itself ended it, a retry never fails:
      it always returns the stored answer. */
  lemma RetriesAfterTheEndSucceed(
    rules: Rules, db: Db, game: GameId, request: Request, us: nat, calls: seq<Call>, retry: Request, retryUs: nat)
    requires rules.Faithful() && DbOk(rules, db)
    requires IsCommand(request) && NewlyAccepted(TransactAnswer(rules, db, game, request, us))
    requires IsCommand(retry) && retry.Submit? == request.Submit?
    requires CommandId(retry) == CommandId(request) && CommandGuest(retry) == CommandGuest(request)
    requires || NewEnding(TransactAnswer(rules, db, game, request, us)).Some?
             || HasEnded(Run(rules, Transact(rules, db, game, request, us), calls), game)
    ensures var now := Run(rules, Transact(rules, db, game, request, us), calls);
            && Transact(rules, now, game, retry, retryUs) == now
            && TransactAnswer(rules, now, game, retry, retryUs) ==
               AsDuplicate(TransactAnswer(rules, db, game, request, us))
  {
    var answer := TransactAnswer(rules, db, game, request, us);
    var accepted := Transact(rules, db, game, request, us);
    AcceptedIntoStore(rules, db, game, request, us);
    if NewEnding(answer).Some? {
      AnnouncedHasEnded(rules, db, game, request, us);
      EndedStaysEnded(rules, accepted, calls, game);
    }
    StoredOutlivesRun(rules, accepted, game, request, answer, calls, retry, retryUs);
    EndedAnswerIsStored(rules, Run(rules, accepted, calls), game, retry, retryUs, answer);
  }

  lemma AnnouncedHasEnded(rules: Rules, db: Db, game: GameId, request: Request, us: nat)
    requires rules.Faithful() && DbOk(rules, db)
    requires NewEnding(TransactAnswer(rules, db, game, request, us)).Some?
    ensures HasEnded(Transact(rules, db, game, request, us), game)
  {
    StepEndsWhenAnnounced(rules, db, TransactCall(game, request, us), game);
  }

  lemma EndedStaysEnded(rules: Rules, db: Db, calls: seq<Call>, game: GameId)
    requires rules.Faithful() && DbOk(rules, db) && HasEnded(db, game)
    ensures HasEnded(Run(rules, db, calls), game)
  {
    TerminalGamesAreFrozen(rules, db, calls, game);
  }

  lemma EndedAnswerIsStored(rules: Rules, db: Db, game: GameId, request: Request, us: nat, stored: Response)
    requires stored.Moved? || stored.Ended?
    requires AnsweredFromStore(rules, db, game, request, us, stored) && HasEnded(db, game)
    ensures Transact(rules, db, game, request, us) == db
    ensures TransactAnswer(rules, db, game, request, us) == AsDuplicate(stored)
  {
    EndedGamesAlwaysLock(db.games[game].game, us);
  }

  /** The command is answered from the store, and changes nothing. */
  predicate AnsweredFromStore(rules: Rules, db: Db, game: GameId, request: Request, us: nat, stored: Response)
    requires stored.Moved? || stored.Ended?
  {
    && game in db.games
    && Transact(rules, db, game, request, us) == db
    && TransactAnswer(rules, db, game, request, us) ==
       if LockGameClock(db.games[game].game, us).Some? then AsDuplicate(stored) else TransactionFailed
  }

  lemma StoredOutlivesRun(
    rules: Rules, accepted: Db, game: GameId, request: Request, answer: Response,
    calls: seq<Call>, retry: Request, retryUs: nat)
    requires answer.Moved? || answer.Ended?
    requires rules.Faithful() && DbOk(rules, accepted) && game in accepted.games
    requires IsCommand(request) && Stored(accepted.games[game].commands, request, answer)
    requires IsCommand(retry) && retry.Submit? == request.Submit?
    requires CommandId(retry) == CommandId(request) && CommandGuest(retry) == CommandGuest(request)
    ensures AnsweredFromStore(rules, Run(rules, accepted, calls), game, retry, retryUs, answer)
  {
    RunIsSound(rules, accepted, calls);
    StoredIsReturned(rules, accepted, Run(rules, accepted, calls), game, request, answer, retry, retryUs);
  }

  /** In any store grown from one where the command is stored, a retry gets the stored answer. */
  lemma StoredIsReturned(
    rules: Rules, accepted: Db, now: Db, game: GameId, request: Request, answer: Response,
    retry: Request, retryUs: nat)
    requires answer.Moved? || answer.Ended?
    requires rules.Faithful() && DbOk(rules, now) && DbGrows(accepted, now) && game in accepted.games
    requires IsCommand(request) && Stored(accepted.games[game].commands, request, answer)
    requires IsCommand(retry) && retry.Submit? == request.Submit?
    requires CommandId(retry) == CommandId(request) && CommandGuest(retry) == CommandGuest(request)
    ensures AnsweredFromStore(rules, now, game, retry, retryUs, answer)
  {
    StoredStays(accepted, now, game, request, retry, answer);
    RetryLeavesStore(rules, now, game, retry, retryUs, answer);
  }

  lemma AcceptedIntoStore(rules: Rules, db: Db, game: GameId, request: Request, us: nat)
    requires rules.Faithful() && DbOk(rules, db)
    requires IsCommand(request) && NewlyAccepted(TransactAnswer(rules, db, game, request, us))
    ensures var accepted := Transact(rules, db, game, request, us);
            && DbOk(rules, accepted) && game in accepted.games
            && Stored(accepted.games[game].commands, request, TransactAnswer(rules, db, game, request, us))
  {
    TransactKeeps(rules, db, game, request, us);
    AcceptanceIsStored(rules, db.games[game], request, us);
  }

  lemma StoredStays(a: Db, b: Db, game: GameId, request: Request, retry: Request, answer: Response)
    requires DbGrows(a, b) && game in a.games
    requires IsCommand(request) && Stored(a.games[game].commands, request, answer)
    requires IsCommand(retry) && retry.Submit? == request.Submit?
    requires CommandId(retry) == CommandId(request) && CommandGuest(retry) == CommandGuest(request)
    ensures game in b.games && Stored(b.games[game].commands, retry, answer)
  {
    assert CommandsKept(a.games[game].commands, b.games[game].commands);
  }

  lemma RetryLeavesStore(rules: Rules, db: Db, game: GameId, request: Request, us: nat, stored: Response)
    requires rules.Faithful() && DbOk(rules, db) && game in db.games
    requires IsCommand(request) && Stored(db.games[game].commands, request, stored)
    ensures Transact(rules, db, game, request, us) == db
    ensures TransactAnswer(rules, db, game, request, us) ==
            if LockGameClock(db.games[game].game, us).Some? then AsDuplicate(stored) else TransactionFailed
  {
    assert GameOk(rules, db, game);
    StoredGuestPlays(rules, db.games[game], CommandId(request));
    RetryPlan(rules, db.games[game], request, us, stored);
    var answer := if LockGameClock(db.games[game].game, us).Some? then AsDuplicate(stored) else TransactionFailed;
    ReadOnlyCommit(db, game, answer);
  }

  lemma ReadOnlyCommit(db: Db, game: GameId, answer: Response)
    requires game in db.games
    ensures Commit(db, game, ReadOnly(answer)) == db
  {
    assert db.games[game := db.games[game]] == db.games;
  }
}
