/** Many transactions in flight at once, statement by statement, under READ COMMITTED with
    row locks; and the proof that this equals running whole transactions one after another
    in commit order. */
module Interleaving {
  import opened Domain
  import opened ChessEngine
  import opened GameRows
  import opened GameInvariant
  import opened GameMoves
  import opened GameHistory
  import opened GameCommands
  import opened GameDatabase

  type TxId = nat

  /** A request names its game, or finds it through the guest's assignment, read before any lock. */
  datatype Target = ThisGame(game: GameId) | ActiveGameOf(guest: GuestId)

  datatype Tx =
    | Started(target: Target, request: Request)
    | Routed(game: GameId, request: Request)
    | Holding(game: GameId, request: Request, us: nat, row: GameRow)
    | Loaded(game: GameId, request: Request, us: nat, row: GameRow, seen: Aggregate)
    | Writing(game: GameId, request: Request, us: nat, seen: Aggregate, plan: Plan, done: nat, stale: bool)
    | Reserving(input: AllocateGame, locked: nat)
    | Checking(input: AllocateGame, stage: nat)
    | Finished

  datatype System = System(
    db: Db,
    gameLocks: map<GameId, TxId>,
    guestLocks: map<GuestId, TxId>,
    txs: map<TxId, Tx>)

  datatype Event =
    | Begin(tx: TxId, target: Target, request: Request)
    | BeginAllocation(tx: TxId, input: AllocateGame)
    | ReadTarget(tx: TxId)
    | TakeGameLock(tx: TxId, us: nat)
    | Load(tx: TxId)
    | LookUp(tx: TxId)
    | NextStatement(tx: TxId)
    | CommitWrites(tx: TxId)
    | TakeGuestLock(tx: TxId)
    | NextCheck(tx: TxId)
    | InsertAndCommit(tx: TxId)
    | Abort(tx: TxId)
    | ChangeSession(guest: GuestId, session: Session)
    | CleanSession(guest: GuestId, cutoff: int)

  const STATEMENTS: nat := 6

  // ----- steps -----

  /** The rows as the transaction sees them after its first `done` statements. */
  function Partial(agg: Aggregate, plan: Plan, done: nat): Aggregate {
    if done == 0 then agg
    else
      var before := Partial(agg, plan, done - 1);
      match done
      case 1 => WritePlayer(before, plan)
      case 2 => WriteGame(before, plan)
      case 3 => ClearPlayers(before, plan)
      case 4 => InsertMove(before, plan)
      case 6 => InsertCommand(before, plan)
      case _ => before
  }

  /** The version guard of the second statement matches no row. */
  predicate GuardMisses(agg: Aggregate, seen: Aggregate, plan: Plan, done: nat) {
    done == 1 && plan.game.Some? && Partial(agg, plan, 1).game.version != seen.game.version
  }

  /** A unique constraint of the moves or the commands refuses the statement. */
  predicate ConstraintFires(agg: Aggregate, plan: Plan, done: nat) {
    || (done == 3 && plan.move.Some?
        && exists i :: 0 <= i < |agg.moves|
                       && (agg.moves[i].ply == plan.move.value.ply
                           || agg.moves[i].clientMoveId == plan.move.value.clientMoveId))
    || (done == 5 && plan.command.Some? && plan.command.value.0 in agg.commands)
  }

  function SetTx(s: System, t: TxId, tx: Tx): System { s.(txs := s.txs[t := tx]) }

  /** The transaction ends and its locks are released. */
  function End(s: System, t: TxId): System {
    s.(txs := s.txs[t := Finished],
       gameLocks := map g | g in s.gameLocks && s.gameLocks[g] != t :: s.gameLocks[g],
       guestLocks := map g | g in s.guestLocks && s.guestLocks[g] != t :: s.guestLocks[g])
  }

  function DoRead(s: System, t: TxId, tx: Tx): System
    requires tx.Started?
  {
    match tx.target
    case ThisGame(game) => SetTx(s, t, Routed(game, tx.request))
    case ActiveGameOf(guest) =>
      if guest in s.db.assignments then SetTx(s, t, Routed(s.db.assignments[guest], tx.request)) else End(s, t)
  }

  function DoLock(s: System, t: TxId, tx: Tx, us: nat): System
    requires tx.Routed?
  {
    if tx.game !in s.db.games then End(s, t)
    else if tx.game in s.gameLocks then s
    else
      SetTx(s.(gameLocks := s.gameLocks[tx.game := t]), t,
            Holding(tx.game, tx.request, us, s.db.games[tx.game].game))
  }

  /** The game with its players and moves is read. */
  function DoLoad(s: System, t: TxId, tx: Tx): System
    requires tx.Holding?
  {
    if tx.game !in s.db.games then End(s, t)
    else SetTx(s, t, Loaded(tx.game, tx.request, tx.us, tx.row, s.db.games[tx.game]))
  }

  /** Then the commands are looked up, and everything is decided on what was read: the clock and
      status projected with the lock, the game read after it, and the commands read last. */
  function DoLookUp(rules: Rules, s: System, t: TxId, tx: Tx): System
    requires tx.Loaded?
  {
    if tx.game !in s.db.games then End(s, t)
    else
      var seen := tx.seen.(game := tx.row, commands := s.db.games[tx.game].commands);
      SetTx(s, t, Writing(tx.game, tx.request, tx.us, seen, PlanFor(rules, seen, tx.request, tx.us), 0, false))
  }

  function DoStatement(s: System, t: TxId, tx: Tx): System
    requires tx.Writing?
  {
    if tx.game !in s.db.games || tx.stale || tx.done >= STATEMENTS then s
    else if GuardMisses(s.db.games[tx.game], tx.seen, tx.plan, tx.done) then SetTx(s, t, tx.(stale := true))
    else if ConstraintFires(s.db.games[tx.game], tx.plan, tx.done) then End(s, t)
    else SetTx(s, t, tx.(done := tx.done + 1))
  }

  predicate MayCommit(s: System, tx: Tx) {
    tx.Writing? && tx.game in s.db.games && (tx.stale || tx.done >= STATEMENTS)
  }

  /** The rows written so far become visible; a stale transaction leaves what it had written. */
  function DoCommit(s: System, t: TxId, tx: Tx): System
    requires tx.Writing? && tx.game in s.db.games
  {
    var games := s.db.games[tx.game := Partial(s.db.games[tx.game], tx.plan, tx.done)];
    var assignments :=
      if tx.done > 4 && tx.plan.dropAssignments then WithoutGame(s.db.assignments, tx.game) else s.db.assignments;
    End(s.(db := s.db.(games := games, assignments := assignments)), t)
  }

  /** Session rows are locked one at a time, the smaller id first. */
  function NextGuest(input: AllocateGame, locked: nat): GuestId {
    var low := if input.white < input.black then input.white else input.black;
    var high := if input.white < input.black then input.black else input.white;
    if locked == 0 then low else high
  }

  function DoGuestLock(s: System, t: TxId, tx: Tx): System
    requires tx.Reserving?
  {
    var guest := NextGuest(tx.input, tx.locked);
    if guest in s.guestLocks then s
    else
      SetTx(s.(guestLocks := s.guestLocks[guest := t]), t,
            if tx.locked == 0 then Reserving(tx.input, 1) else Checking(tx.input, 0))
  }

  predicate Unassigned(db: Db, input: AllocateGame) {
    input.white !in db.assignments && input.black !in db.assignments
  }

  predicate BothEligible(db: Db, input: AllocateGame) {
    Eligible(db, input.white, input.observedAt) && Eligible(db, input.black, input.observedAt)
  }

  /** The three reads before the insert, each on what is committed at that moment. */
  function DoCheck(s: System, t: TxId, tx: Tx): System
    requires tx.Checking?
  {
    var passed :=
      if tx.stage == 0 then tx.input.matchId !in s.db.matchIndex
      else if tx.stage == 1 then BothEligible(s.db, tx.input)
      else Unassigned(s.db, tx.input);
    if tx.stage >= 3 then s
    else if passed then SetTx(s, t, Checking(tx.input, tx.stage + 1))
    else End(s, t)
  }

  predicate MayInsert(s: System, tx: Tx) {
    tx.Checking? && tx.stage >= 3 && Insertable(s.db, tx.input) && Unassigned(s.db, tx.input)
  }

  function DoInsert(rules: Rules, s: System, t: TxId, tx: Tx): System
    requires tx.Checking?
  {
    if tx.stage < 3 then s
    else if MayInsert(s, tx) then End(s.(db := Insert(s.db, NewGame(rules, tx.input))), t)
    else End(s, t)
  }

  /** One step; an event that is not enabled changes nothing. */
  function Next(rules: Rules, s: System, e: Event): System {
    match e
    case Begin(t, target, request) => if t in s.txs then s else SetTx(s, t, Started(target, request))
    case BeginAllocation(t, input) =>
      if t in s.txs || input.white == input.black then s else SetTx(s, t, Reserving(input, 0))
    case ChangeSession(guest, session) =>
      if guest in s.guestLocks then s else s.(db := s.db.(sessions := s.db.sessions[guest := session]))
    case CleanSession(guest, cutoff) =>
      if guest in s.guestLocks then s else s.(db := Cleanup(s.db, guest, cutoff))
    case ReadTarget(t) => if t in s.txs && s.txs[t].Started? then DoRead(s, t, s.txs[t]) else s
    case TakeGameLock(t, us) => if t in s.txs && s.txs[t].Routed? then DoLock(s, t, s.txs[t], us) else s
    case Load(t) => if t in s.txs && s.txs[t].Holding? then DoLoad(s, t, s.txs[t]) else s
    case LookUp(t) => if t in s.txs && s.txs[t].Loaded? then DoLookUp(rules, s, t, s.txs[t]) else s
    case NextStatement(t) => if t in s.txs && s.txs[t].Writing? then DoStatement(s, t, s.txs[t]) else s
    case CommitWrites(t) => if t in s.txs && MayCommit(s, s.txs[t]) then DoCommit(s, t, s.txs[t]) else s
    case TakeGuestLock(t) => if t in s.txs && s.txs[t].Reserving? then DoGuestLock(s, t, s.txs[t]) else s
    case NextCheck(t) => if t in s.txs && s.txs[t].Checking? then DoCheck(s, t, s.txs[t]) else s
    case InsertAndCommit(t) => if t in s.txs && s.txs[t].Checking? then DoInsert(rules, s, t, s.txs[t]) else s
    case Abort(t) => if t in s.txs then End(s, t) else s
  }

  /** The whole call a step commits, if it commits one. */
  function Committed(s: System, e: Event): seq<Call> {
    match e
    case CommitWrites(t) =>
      if t in s.txs && MayCommit(s, s.txs[t]) then [TransactCall(s.txs[t].game, s.txs[t].request, s.txs[t].us)] else []
    case InsertAndCommit(t) =>
      if t in s.txs && MayInsert(s, s.txs[t]) then [AllocateCall(s.txs[t].input)] else []
    case ChangeSession(guest, session) => if guest in s.guestLocks then [] else [SessionCall(guest, session)]
    case CleanSession(guest, cutoff) => if guest in s.guestLocks then [] else [CleanupCall(guest, cutoff)]
    case _ => []
  }

  const Idle: System := System(EmptyDb, map[], map[], map[])

  function RunSystem(rules: Rules, events: seq<Event>): System {
    if events == [] then Idle
    else Next(rules, RunSystem(rules, events[..|events| - 1]), events[|events| - 1])
  }

  /** The calls a run commits, in commit order. */
  function CommitOrder(rules: Rules, events: seq<Event>): seq<Call> {
    if events == [] then []
    else
      var front := events[..|events| - 1];
      CommitOrder(rules, front) + Committed(RunSystem(rules, front), events[|events| - 1])
  }

  // ----- the invariant -----

  predicate OwnsGame(s: System, t: TxId, game: GameId) { game in s.gameLocks && s.gameLocks[game] == t }

  predicate OwnsGuest(s: System, t: TxId, guest: GuestId) { guest in s.guestLocks && s.guestLocks[guest] == t }

  /** What a transaction has read is still true, because it holds the lock that protects it. */
  predicate TxOk(rules: Rules, s: System, t: TxId)
    requires t in s.txs
  {
    match s.txs[t]
    case Loaded(game, _, _, row, seen) =>
      OwnsGame(s, t, game) && game in s.db.games && s.db.games[game] == seen && seen.game == row
    case Holding(game, _, _, row) =>
      OwnsGame(s, t, game) && game in s.db.games && s.db.games[game].game == row
    case Writing(game, request, us, seen, plan, done, stale) =>
      && OwnsGame(s, t, game) && game in s.db.games && s.db.games[game] == seen
      && plan == PlanFor(rules, seen, request, us)
      && done <= STATEMENTS && !stale
    case Reserving(input, locked) =>
      input.white != input.black && locked <= 1 && (locked == 1 ==> OwnsGuest(s, t, NextGuest(input, 0)))
    case Checking(input, stage) =>
      && input.white != input.black && stage <= 3
      && OwnsGuest(s, t, input.white) && OwnsGuest(s, t, input.black)
      && (stage >= 2 ==> BothEligible(s.db, input))
      && (stage >= 3 ==> Unassigned(s.db, input))
    case _ => true
  }

  predicate TxsOk(rules: Rules, s: System) {
    forall t {:trigger TxOk(rules, s, t)} :: t in s.txs ==> TxOk(rules, s, t)
  }

  ghost predicate SystemOk(rules: Rules, s: System) { DbOk(rules, s.db) && TxsOk(rules, s) }

  /** A step of one transaction that leaves the store alone and takes no lock of another. */
  lemma OthersUndisturbed(rules: Rules, s: System, after: System, t: TxId)
    requires TxsOk(rules, s) && after.db == s.db
    requires forall u :: u in after.txs && u != t ==> u in s.txs && after.txs[u] == s.txs[u]
    requires forall g :: g in s.gameLocks && s.gameLocks[g] != t ==>
               g in after.gameLocks && after.gameLocks[g] == s.gameLocks[g]
    requires forall g :: g in s.guestLocks && s.guestLocks[g] != t ==>
               g in after.guestLocks && after.guestLocks[g] == s.guestLocks[g]
    requires t in after.txs ==> TxOk(rules, after, t)
    ensures TxsOk(rules, after)
  {
    forall u | u in after.txs
      ensures TxOk(rules, after, u)
    {
      if u != t {
        assert TxOk(rules, s, u);
      }
    }
  }

  /** Ending a transaction disturbs no other. */
  lemma EndKeeps(rules: Rules, s: System, t: TxId)
    requires TxsOk(rules, s)
    ensures TxsOk(rules, End(s, t))
  {
    OthersUndisturbed(rules, s, End(s, t), t);
  }

  // ----- the writes of one game -----

  lemma PartialIsExecute(agg: Aggregate, plan: Plan)
    ensures Partial(agg, plan, STATEMENTS) == Execute(agg, plan)
  {
    assert Partial(agg, plan, 1) == WritePlayer(Partial(agg, plan, 0), plan);
    assert Partial(agg, plan, 2) == WriteGame(Partial(agg, plan, 1), plan);
    assert Partial(agg, plan, 4) == InsertMove(ClearPlayers(Partial(agg, plan, 2), plan), plan);
  }

  lemma PlayerWriteKeepsVersion(agg: Aggregate, plan: Plan)
    ensures Partial(agg, plan, 1).game == agg.game
  {
  }

  /** On rows still as they were read, the version guard matches and no unique constraint fires. */
  lemma StatementsSucceed(rules: Rules, agg: Aggregate, request: Request, us: nat, done: nat)
    requires AggOk(rules, agg)
    ensures var plan := PlanFor(rules, agg, request, us);
            !GuardMisses(agg, agg, plan, done) && !ConstraintFires(agg, plan, done)
  {
    PlayerWriteKeepsVersion(agg, PlanFor(rules, agg, request, us));
    InsertsAreNew(rules, agg, request, us);
    LogIsContiguous(rules, agg.game.initialFen, (agg.white.guest, agg.black.guest), agg.moves);
    MovesAndCommandsCorrespond(agg);
    NewRowsAreFree(agg, PlanFor(rules, agg, request, us), done);
  }

  lemma NewRowsAreFree(agg: Aggregate, plan: Plan, done: nat)
    requires ContiguousHistory(agg.moves)
    requires forall i :: 0 <= i < |agg.moves| ==> MoveRecorded(agg, i)
    requires plan.command.Some? ==> plan.command.value.0 !in agg.commands
    requires plan.move.Some? ==>
               && plan.command.Some? && plan.move.value.clientMoveId == plan.command.value.0
               && plan.move.value.ply == |agg.moves| + 1
    ensures !ConstraintFires(agg, plan, done)
  {
    if done == 3 && plan.move.Some? {
      forall i | 0 <= i < |agg.moves|
        ensures agg.moves[i].ply != plan.move.value.ply && agg.moves[i].clientMoveId != plan.move.value.clientMoveId
      {
        assert MoveRecorded(agg, i);
      }
    }
  }

  /** A plan inserts a command only under an id not yet used, and a move only as the next ply under that id. */
  lemma InsertsAreNew(rules: Rules, agg: Aggregate, request: Request, us: nat)
    requires RowOk(agg.game) && PlayersOk(agg)
    ensures var plan := PlanFor(rules, agg, request, us);
            && (plan.command.Some? ==> plan.command.value.0 !in agg.commands)
            && (plan.move.Some? ==>
                  && plan.command.Some? && plan.move.value.clientMoveId == plan.command.value.0
                  && plan.move.value.ply == |agg.moves| + 1)
  {
    EveryPlanHasItsShape(rules, agg, request, us);
    if request.Submit? {
      SubmitShape(rules, agg, request.input, us);
    } else if request.ResignRequest? {
      ResignAcceptance(agg, request.resign, us);
    }
  }

  // ----- every step keeps the invariant, and commits whole transactions -----

  /** A step that commits nothing: the invariant survives and the store is untouched. */
  predicate Silent(s: System, after: System, e: Event) { after.db == s.db && Committed(s, e) == [] }

  lemma ReadTargetIsSilent(rules: Rules, s: System, t: TxId)
    requires TxsOk(rules, s)
    ensures TxsOk(rules, Next(rules, s, ReadTarget(t))) && Silent(s, Next(rules, s, ReadTarget(t)), ReadTarget(t))
  {
    var after := Next(rules, s, ReadTarget(t));
    if t in s.txs && s.txs[t].Started? {
      OthersUndisturbed(rules, s, after, t);
    }
  }

  lemma TakeGameLockIsSilent(rules: Rules, s: System, t: TxId, us: nat)
    requires TxsOk(rules, s)
    ensures var e := TakeGameLock(t, us);
            TxsOk(rules, Next(rules, s, e)) && Silent(s, Next(rules, s, e), e)
  {
    var after := Next(rules, s, TakeGameLock(t, us));
    if t in s.txs && s.txs[t].Routed? {
      assert TxOk(rules, s, t);
      OthersUndisturbed(rules, s, after, t);
    }
  }

  lemma LoadIsSilent(rules: Rules, s: System, t: TxId)
    requires TxsOk(rules, s)
    ensures TxsOk(rules, Next(rules, s, Load(t))) && Silent(s, Next(rules, s, Load(t)), Load(t))
  {
    var after := Next(rules, s, Load(t));
    if t in s.txs && s.txs[t].Holding? {
      assert TxOk(rules, s, t);
      OthersUndisturbed(rules, s, after, t);
    }
  }

  lemma LookUpIsSilent(rules: Rules, s: System, t: TxId)
    requires TxsOk(rules, s)
    ensures TxsOk(rules, Next(rules, s, LookUp(t))) && Silent(s, Next(rules, s, LookUp(t)), LookUp(t))
  {
    var after := Next(rules, s, LookUp(t));
    if t in s.txs && s.txs[t].Loaded? {
      assert TxOk(rules, s, t);
      OthersUndisturbed(rules, s, after, t);
    }
  }

  lemma NextStatementIsSilent(rules: Rules, s: System, t: TxId)
    requires SystemOk(rules, s)
    ensures TxsOk(rules, Next(rules, s, NextStatement(t)))
    ensures Silent(s, Next(rules, s, NextStatement(t)), NextStatement(t))
  {
    var after := Next(rules, s, NextStatement(t));
    if t in s.txs && s.txs[t].Writing? {
      assert TxOk(rules, s, t);
      WritesSucceed(rules, s, t);
      OthersUndisturbed(rules, s, after, t);
    }
  }

  /** In every consistent system no version guard misses and no unique constraint fires: the
      stale branches are unreachable, and the player row written before the guard is never
      committed alone. */
  lemma WritesSucceed(rules: Rules, s: System, t: TxId)
    requires SystemOk(rules, s) && t in s.txs && s.txs[t].Writing?
    ensures var tx := s.txs[t];
            && tx.game in s.db.games && !tx.stale
            && !GuardMisses(s.db.games[tx.game], tx.seen, tx.plan, tx.done)
            && !ConstraintFires(s.db.games[tx.game], tx.plan, tx.done)
  {
    assert TxOk(rules, s, t);
    var tx := s.txs[t];
    assert GameOk(rules, s.db, tx.game);
    StatementsSucceed(rules, tx.seen, tx.request, tx.us, tx.done);
  }

  lemma TakeGuestLockIsSilent(rules: Rules, s: System, t: TxId)
    requires TxsOk(rules, s)
    ensures TxsOk(rules, Next(rules, s, TakeGuestLock(t)))
    ensures Silent(s, Next(rules, s, TakeGuestLock(t)), TakeGuestLock(t))
  {
    var after := Next(rules, s, TakeGuestLock(t));
    if t in s.txs && s.txs[t].Reserving? {
      assert TxOk(rules, s, t);
      OthersUndisturbed(rules, s, after, t);
    }
  }

  lemma NextCheckIsSilent(rules: Rules, s: System, t: TxId)
    requires TxsOk(rules, s)
    ensures TxsOk(rules, Next(rules, s, NextCheck(t))) && Silent(s, Next(rules, s, NextCheck(t)), NextCheck(t))
  {
    var after := Next(rules, s, NextCheck(t));
    if t in s.txs && s.txs[t].Checking? {
      assert TxOk(rules, s, t);
      OthersUndisturbed(rules, s, after, t);
    }
  }

  /** A commit makes exactly the effect of the whole transaction on the store as it is then. */
  lemma CommitIsAtomic(rules: Rules, s: System, t: TxId)
    requires SystemOk(rules, s) && t in s.txs && MayCommit(s, s.txs[t])
    ensures var tx := s.txs[t];
            && Next(rules, s, CommitWrites(t)).db == Transact(rules, s.db, tx.game, tx.request, tx.us)
            && tx.plan.response == TransactAnswer(rules, s.db, tx.game, tx.request, tx.us)
  {
    assert TxOk(rules, s, t);
    PartialIsExecute(s.txs[t].seen, s.txs[t].plan);
  }

  /** Another transaction holds none of the rows a committing transaction changes. */
  lemma CommitKeepsTxs(rules: Rules, s: System, t: TxId)
    requires SystemOk(rules, s) && t in s.txs && MayCommit(s, s.txs[t])
    ensures TxsOk(rules, Next(rules, s, CommitWrites(t)))
  {
    var after := Next(rules, s, CommitWrites(t));
    var game := s.txs[t].game;
    assert TxOk(rules, s, t);
    forall u | u in after.txs
      ensures TxOk(rules, after, u)
    {
      if u != t {
        assert TxOk(rules, s, u);
        OtherSurvivesCommit(rules, s, after, u, game);
      }
    }
  }

  lemma OtherSurvivesCommit(rules: Rules, s: System, after: System, u: TxId, game: GameId)
    requires u in s.txs && TxOk(rules, s, u) && u in after.txs && after.txs[u] == s.txs[u]
    requires !OwnsGame(s, u, game)
    requires forall g :: OwnsGame(s, u, g) ==> OwnsGame(after, u, g)
    requires forall g :: OwnsGuest(s, u, g) ==> OwnsGuest(after, u, g)
    requires forall g :: g in s.db.games && g != game ==> g in after.db.games && after.db.games[g] == s.db.games[g]
    requires after.db.sessions == s.db.sessions
    requires forall g :: OwnsGuest(s, u, g) && g !in s.db.assignments ==> g !in after.db.assignments
    ensures TxOk(rules, after, u)
  {
  }

  lemma CommitStep(rules: Rules, s: System, t: TxId)
    requires rules.Faithful() && SystemOk(rules, s)
    ensures var e := CommitWrites(t);
            SystemOk(rules, Next(rules, s, e)) && Next(rules, s, e).db == Run(rules, s.db, Committed(s, e))
  {
    if t in s.txs && MayCommit(s, s.txs[t]) {
      var tx := s.txs[t];
      CommitIsAtomic(rules, s, t);
      CommitKeepsTxs(rules, s, t);
      TransactKeeps(rules, s.db, tx.game, tx.request, tx.us);
      RunOne(rules, s.db, TransactCall(tx.game, tx.request, tx.us));
    }
  }

  /** An insert makes exactly the effect of the whole allocation on the store as it is then;
      and the assignments it checked are still free, so their keys never collide. */
  lemma InsertIsAtomic(rules: Rules, s: System, t: TxId)
    requires SystemOk(rules, s) && t in s.txs && s.txs[t].Checking? && s.txs[t].stage >= 3
    ensures Unassigned(s.db, s.txs[t].input)
    ensures MayInsert(s, s.txs[t]) ==> Inserts(rules, s.db, s.txs[t].input)
    ensures Next(rules, s, InsertAndCommit(t)).db == Allocate(rules, s.db, s.txs[t].input)
  {
    assert TxOk(rules, s, t);
  }

  lemma InsertKeepsTxs(rules: Rules, s: System, t: TxId)
    requires SystemOk(rules, s) && t in s.txs && MayInsert(s, s.txs[t])
    ensures TxsOk(rules, Next(rules, s, InsertAndCommit(t)))
  {
    var after := Next(rules, s, InsertAndCommit(t));
    var input := s.txs[t].input;
    assert TxOk(rules, s, t);
    forall u | u in after.txs
      ensures TxOk(rules, after, u)
    {
      if u != t {
        assert TxOk(rules, s, u);
        OtherSurvivesInsert(rules, s, after, u, input);
      }
    }
  }

  lemma OtherSurvivesInsert(rules: Rules, s: System, after: System, u: TxId, input: AllocateGame)
    requires u in s.txs && TxOk(rules, s, u) && u in after.txs && after.txs[u] == s.txs[u]
    requires !OwnsGuest(s, u, input.white) && !OwnsGuest(s, u, input.black)
    requires forall g :: OwnsGame(s, u, g) ==> OwnsGame(after, u, g)
    requires forall g :: OwnsGuest(s, u, g) ==> OwnsGuest(after, u, g)
    requires input.gameId !in s.db.games
    requires after.db == Insert(s.db, NewGame(rules, input))
    ensures TxOk(rules, after, u)
  {
  }

  lemma InsertStep(rules: Rules, s: System, t: TxId)
    requires rules.Faithful() && SystemOk(rules, s)
    ensures var e := InsertAndCommit(t);
            SystemOk(rules, Next(rules, s, e)) && Next(rules, s, e).db == Run(rules, s.db, Committed(s, e))
  {
    if t in s.txs && s.txs[t].Checking? && s.txs[t].stage >= 3 {
      InsertIsAtomic(rules, s, t);
      if MayInsert(s, s.txs[t]) {
        InsertKeepsTxs(rules, s, t);
        AllocateKeeps(rules, s.db, s.txs[t].input);
        RunOne(rules, s.db, AllocateCall(s.txs[t].input));
      } else {
        EndKeeps(rules, s, t);
      }
    }
  }

  /** A session row is written only while nobody else has it locked. */
  lemma ChangeSessionStep(rules: Rules, s: System, guest: GuestId, session: Session)
    requires rules.Faithful() && SystemOk(rules, s)
    ensures var e := ChangeSession(guest, session);
            SystemOk(rules, Next(rules, s, e)) && Next(rules, s, e).db == Run(rules, s.db, Committed(s, e))
  {
    if guest !in s.guestLocks {
      SessionsAreApart(rules, s.db, s.db.sessions[guest := session]);
      RunOne(rules, s.db, SessionCall(guest, session));
      SessionWriteKeepsTxs(rules, s, Next(rules, s, ChangeSession(guest, session)), guest);
    }
  }

  /** And removed only then. */
  lemma CleanSessionStep(rules: Rules, s: System, guest: GuestId, cutoff: int)
    requires rules.Faithful() && SystemOk(rules, s)
    ensures var e := CleanSession(guest, cutoff);
            SystemOk(rules, Next(rules, s, e)) && Next(rules, s, e).db == Run(rules, s.db, Committed(s, e))
  {
    if guest !in s.guestLocks {
      SessionsAreApart(rules, s.db, Cleanup(s.db, guest, cutoff).sessions);
      RunOne(rules, s.db, CleanupCall(guest, cutoff));
      SessionWriteKeepsTxs(rules, s, Next(rules, s, CleanSession(guest, cutoff)), guest);
    }
  }

  lemma SessionWriteKeepsTxs(rules: Rules, s: System, after: System, guest: GuestId)
    requires TxsOk(rules, s) && guest !in s.guestLocks
    requires after == s.(db := s.db.(sessions := after.db.sessions))
    requires forall g :: g != guest ==> (g in s.db.sessions <==> g in after.db.sessions)
    requires forall g :: g != guest && g in s.db.sessions ==> after.db.sessions[g] == s.db.sessions[g]
    ensures TxsOk(rules, after)
  {
    forall u | u in after.txs
      ensures TxOk(rules, after, u)
    {
      assert TxOk(rules, s, u);
    }
  }

  lemma BeginIsSilent(rules: Rules, s: System, e: Event)
    requires TxsOk(rules, s) && (e.Begin? || e.BeginAllocation? || e.Abort?)
    ensures TxsOk(rules, Next(rules, s, e)) && Silent(s, Next(rules, s, e), e)
  {
    OthersUndisturbed(rules, s, Next(rules, s, e), e.tx);
  }

  /** One step of the system keeps the invariant, and its effect on the store is that of the
      whole transaction it commits, or none. */
  lemma StepRefines(rules: Rules, s: System, e: Event)
    requires rules.Faithful() && SystemOk(rules, s)
    ensures SystemOk(rules, Next(rules, s, e))
    ensures Next(rules, s, e).db == Run(rules, s.db, Committed(s, e))
  {
    match e
    case Begin(_, _, _) => BeginIsSilent(rules, s, e);
    case BeginAllocation(_, _) => BeginIsSilent(rules, s, e);
    case Abort(_) => BeginIsSilent(rules, s, e);
    case ReadTarget(t) => ReadTargetIsSilent(rules, s, t);
    case TakeGameLock(t, us) => TakeGameLockIsSilent(rules, s, t, us);
    case Load(t) => LoadIsSilent(rules, s, t);
    case LookUp(t) => LookUpIsSilent(rules, s, t);
    case NextStatement(t) => NextStatementIsSilent(rules, s, t);
    case TakeGuestLock(t) => TakeGuestLockIsSilent(rules, s, t);
    case NextCheck(t) => NextCheckIsSilent(rules, s, t);
    case CommitWrites(t) => CommitStep(rules, s, t);
    case InsertAndCommit(t) => InsertStep(rules, s, t);
    case ChangeSession(guest, session) => ChangeSessionStep(rules, s, guest, session);
    case CleanSession(guest, cutoff) => CleanSessionStep(rules, s, guest, cutoff);
  }

  /** Every interleaving leaves the store that running the committed transactions one after
      another, whole and in commit order, leaves. */
  lemma {:induction false} InterleavingsAreSerial(rules: Rules, events: seq<Event>)
    requires rules.Faithful()
    ensures SystemOk(rules, RunSystem(rules, events))
    ensures RunSystem(rules, events).db == Run(rules, EmptyDb, CommitOrder(rules, events))
  {
    if events == [] {
      EmptyDbOk(rules);
    } else {
      var front := events[..|events| - 1];
      InterleavingsAreSerial(rules, front);
      StepRefines(rules, RunSystem(rules, front), events[|events| - 1]);
      RunsCompose(rules, EmptyDb, CommitOrder(rules, front), Committed(RunSystem(rules, front), events[|events| - 1]));
    }
  }

  /** In every reachable system: no guard misses, no constraint fires, nothing stale is ever
      committed, and what a transaction has read is what is stored when it commits. */
  lemma StaleBranchesAreUnreachable(rules: Rules, events: seq<Event>, t: TxId)
    requires rules.Faithful()
    requires var s := RunSystem(rules, events); t in s.txs && s.txs[t].Writing?
    ensures var s := RunSystem(rules, events);
            var tx := s.txs[t];
            && tx.game in s.db.games && s.db.games[tx.game] == tx.seen && !tx.stale
            && !GuardMisses(s.db.games[tx.game], tx.seen, tx.plan, tx.done)
            && !ConstraintFires(s.db.games[tx.game], tx.plan, tx.done)
  {
    InterleavingsAreSerial(rules, events);
    WritesSucceed(rules, RunSystem(rules, events), t);
    assert TxOk(rules, RunSystem(rules, events), t);
  }

  /** However a transaction found its game, if that game has ended by the time it commits,
      for instance between its read of the assignment and its lock, it changes nothing. */
  lemma LateTransactionsChangeNothing(rules: Rules, events: seq<Event>, t: TxId)
    requires rules.Faithful()
    requires var s := RunSystem(rules, events); t in s.txs && MayCommit(s, s.txs[t]) && HasEnded(s.db, s.txs[t].game)
    ensures RunSystem(rules, events + [CommitWrites(t)]).db == RunSystem(rules, events).db
    ensures NewEnding(RunSystem(rules, events).txs[t].plan.response).None?
  {
    InterleavingsAreSerial(rules, events);
    var s := RunSystem(rules, events);
    var tx := s.txs[t];
    assert (events + [CommitWrites(t)])[..|events|] == events;
    CommitIsAtomic(rules, s, t);
    PlanIsSound(rules, s.db, tx.game, tx.request, tx.us);
    TerminalCommit(s.db, tx.game, PlanFor(rules, s.db.games[tx.game], tx.request, tx.us));
  }

  // ----- progress -----

  /** The transaction waits for a lock another holds. */
  predicate Blocked(s: System, t: TxId)
    requires t in s.txs
  {
    match s.txs[t]
    case Routed(game, _) => game in s.db.games && game in s.gameLocks
    case Reserving(input, locked) => NextGuest(input, locked) in s.guestLocks
    case _ => false
  }

  predicate Unfinished(s: System, t: TxId) { t in s.txs && !s.txs[t].Finished? }

  /** The event by which a transaction goes on. */
  function Onward(t: TxId, tx: Tx, us: nat): Event {
    match tx
    case Started(_, _) => ReadTarget(t)
    case Routed(_, _) => TakeGameLock(t, us)
    case Holding(_, _, _, _) => Load(t)
    case Loaded(_, _, _, _, _) => LookUp(t)
    case Writing(_, _, _, _, _, done, stale) =>
      if stale || done >= STATEMENTS then CommitWrites(t) else NextStatement(t)
    case Reserving(_, _) => TakeGuestLock(t)
    case Checking(_, stage) => if stage >= 3 then InsertAndCommit(t) else NextCheck(t)
    case Finished => Abort(t)
  }

  /** How many steps a transaction is from its end, at most. */
  function Remaining(tx: Tx): nat {
    match tx
    case Started(_, _) => 12
    case Routed(_, _) => 11
    case Holding(_, _, _, _) => 10
    case Loaded(_, _, _, _, _) => 9
    case Writing(_, _, _, _, _, done, _) => if done >= STATEMENTS then 1 else 1 + STATEMENTS - done
    case Reserving(_, locked) => if locked == 0 then 12 else 11
    case Checking(_, stage) => if stage >= 3 then 1 else 4 - stage
    case Finished => 0
  }

  /** A transaction that waits for nobody moves closer to its end. */
  lemma UnblockedMovesOn(rules: Rules, s: System, t: TxId, us: nat)
    requires SystemOk(rules, s) && Unfinished(s, t) && !Blocked(s, t)
    ensures var after := Next(rules, s, Onward(t, s.txs[t], us));
            t in after.txs && Remaining(after.txs[t]) < Remaining(s.txs[t])
  {
    match s.txs[t]
    case Writing(_, _, _, _, _, _, _) =>
      WritesSucceed(rules, s, t);
      WriterMovesOn(rules, s, t, us);
    case Reserving(_, _) =>
      assert TxOk(rules, s, t);
      ReserverMovesOn(rules, s, t, us);
    case Checking(_, _) =>
      assert TxOk(rules, s, t);
      ReserverMovesOn(rules, s, t, us);
    case _ => ReaderMovesOn(rules, s, t, us);
  }

  lemma ReserverMovesOn(rules: Rules, s: System, t: TxId, us: nat)
    requires t in s.txs && (s.txs[t].Reserving? || s.txs[t].Checking?) && !Blocked(s, t)
    requires TxOk(rules, s, t)
    ensures var after := Next(rules, s, Onward(t, s.txs[t], us));
            t in after.txs && Remaining(after.txs[t]) < Remaining(s.txs[t])
  {
  }

  lemma ReaderMovesOn(rules: Rules, s: System, t: TxId, us: nat)
    requires t in s.txs && (s.txs[t].Started? || s.txs[t].Routed? || s.txs[t].Holding? || s.txs[t].Loaded?)
    requires !Blocked(s, t)
    ensures var after := Next(rules, s, Onward(t, s.txs[t], us));
            t in after.txs && Remaining(after.txs[t]) < Remaining(s.txs[t])
  {
  }

  lemma WriterMovesOn(rules: Rules, s: System, t: TxId, us: nat)
    requires t in s.txs && s.txs[t].Writing?
    requires var tx := s.txs[t];
             && tx.game in s.db.games && !tx.stale
             && !GuardMisses(s.db.games[tx.game], tx.seen, tx.plan, tx.done)
             && !ConstraintFires(s.db.games[tx.game], tx.plan, tx.done)
    ensures var after := Next(rules, s, Onward(t, s.txs[t], us));
            t in after.txs && Remaining(after.txs[t]) < Remaining(s.txs[t])
  {
  }

  /** Every lock is held by a transaction that has reached the point of holding it. */
  predicate LocksHeld(s: System) {
    && (forall g :: g in s.gameLocks ==> HoldsGame(s, s.gameLocks[g], g))
    && (forall g :: g in s.guestLocks ==> HoldsGuest(s, s.guestLocks[g], g))
  }

  predicate HoldsGame(s: System, t: TxId, game: GameId) {
    t in s.txs && (s.txs[t].Holding? || s.txs[t].Loaded? || s.txs[t].Writing?) && s.txs[t].game == game
  }

  predicate HoldsGuest(s: System, t: TxId, guest: GuestId) {
    && t in s.txs
    && (s.txs[t].Reserving? || s.txs[t].Checking?)
    && (s.txs[t].Reserving? ==> s.txs[t].locked == 1 && guest == NextGuest(s.txs[t].input, 0))
  }

  /** One transaction moves, keeping or newly taking the locks its new phase holds. */
  lemma MoverKeepsLocks(s: System, after: System, t: TxId)
    requires LocksHeld(s) && t in after.txs
    requires forall u :: u in s.txs && u != t ==> u in after.txs && after.txs[u] == s.txs[u]
    requires forall g :: g in after.gameLocks && after.gameLocks[g] != t ==>
               g in s.gameLocks && s.gameLocks[g] == after.gameLocks[g]
    requires forall g :: g in after.guestLocks && after.guestLocks[g] != t ==>
               g in s.guestLocks && s.guestLocks[g] == after.guestLocks[g]
    requires forall g :: OwnsGame(after, t, g) ==> HoldsGame(after, t, g)
    requires forall g :: OwnsGuest(after, t, g) ==> HoldsGuest(after, t, g)
    ensures LocksHeld(after)
  {
    forall g | g in after.gameLocks
      ensures HoldsGame(after, after.gameLocks[g], g)
    {
      assert OwnsGame(after, after.gameLocks[g], g);
      assert after.gameLocks[g] != t ==> HoldsGame(s, s.gameLocks[g], g);
    }
    forall g | g in after.guestLocks
      ensures HoldsGuest(after, after.guestLocks[g], g)
    {
      assert OwnsGuest(after, after.guestLocks[g], g);
      assert after.guestLocks[g] != t ==> HoldsGuest(s, s.guestLocks[g], g);
    }
  }

  /** What a transaction owns before it moves, it holds. */
  lemma OwnedIsHeld(s: System, t: TxId)
    requires LocksHeld(s)
    ensures forall g :: OwnsGame(s, t, g) ==> HoldsGame(s, t, g)
    ensures forall g :: OwnsGuest(s, t, g) ==> HoldsGuest(s, t, g)
  {
  }

  lemma LockStepKeepsLocks(rules: Rules, s: System, e: Event)
    requires LocksHeld(s) && e.TakeGameLock?
    ensures LocksHeld(Next(rules, s, e))
  {
    if e.tx in s.txs {
      OwnedIsHeld(s, e.tx);
      MoverKeepsLocks(s, Next(rules, s, e), e.tx);
    }
  }

  lemma LoadStepKeepsLocks(rules: Rules, s: System, e: Event)
    requires LocksHeld(s) && e.Load?
    ensures LocksHeld(Next(rules, s, e))
  {
    if e.tx in s.txs {
      OwnedIsHeld(s, e.tx);
      MoverKeepsLocks(s, Next(rules, s, e), e.tx);
    }
  }

  lemma LookUpKeepsLocks(rules: Rules, s: System, e: Event)
    requires LocksHeld(s) && e.LookUp?
    ensures LocksHeld(Next(rules, s, e))
  {
    if e.tx in s.txs {
      OwnedIsHeld(s, e.tx);
      MoverKeepsLocks(s, Next(rules, s, e), e.tx);
    }
  }

  lemma StatementKeepsLocks(rules: Rules, s: System, e: Event)
    requires LocksHeld(s) && e.NextStatement?
    ensures LocksHeld(Next(rules, s, e))
  {
    if e.tx in s.txs {
      OwnedIsHeld(s, e.tx);
      MoverKeepsLocks(s, Next(rules, s, e), e.tx);
    }
  }

  lemma GuestLockKeepsLocks(rules: Rules, s: System, e: Event)
    requires LocksHeld(s) && e.TakeGuestLock?
    ensures LocksHeld(Next(rules, s, e))
  {
    if e.tx in s.txs {
      OwnedIsHeld(s, e.tx);
      MoverKeepsLocks(s, Next(rules, s, e), e.tx);
    }
  }

  lemma CheckKeepsLocks(rules: Rules, s: System, e: Event)
    requires LocksHeld(s) && e.NextCheck?
    ensures LocksHeld(Next(rules, s, e))
  {
    if e.tx in s.txs {
      OwnedIsHeld(s, e.tx);
      MoverKeepsLocks(s, Next(rules, s, e), e.tx);
    }
  }

  lemma OuterStepKeepsLocks(rules: Rules, s: System, e: Event)
    requires LocksHeld(s) && (e.Begin? || e.BeginAllocation?)
    ensures LocksHeld(Next(rules, s, e))
  {
    if e.tx in Next(rules, s, e).txs {
      OwnedIsHeld(s, e.tx);
      MoverKeepsLocks(s, Next(rules, s, e), e.tx);
    }
  }

  lemma TargetStepKeepsLocks(rules: Rules, s: System, e: Event)
    requires LocksHeld(s) && e.ReadTarget?
    ensures LocksHeld(Next(rules, s, e))
  {
    if e.tx in s.txs && s.txs[e.tx].Started? {
      StarterOwnsNothing(s, DoRead(s, e.tx, s.txs[e.tx]), e.tx);
    }
  }

  lemma StarterOwnsNothing(s: System, after: System, t: TxId)
    requires LocksHeld(s) && t in s.txs && s.txs[t].Started?
    requires t in after.txs && after.txs == s.txs[t := after.txs[t]]
    requires forall g :: g in after.gameLocks ==> g in s.gameLocks && after.gameLocks[g] == s.gameLocks[g]
    requires forall g :: g in after.guestLocks ==> g in s.guestLocks && after.guestLocks[g] == s.guestLocks[g]
    ensures LocksHeld(after)
  {
    forall g | g in after.gameLocks
      ensures HoldsGame(after, after.gameLocks[g], g)
    {
      assert HoldsGame(s, s.gameLocks[g], g);
    }
    forall g | g in after.guestLocks
      ensures HoldsGuest(after, after.guestLocks[g], g)
    {
      assert HoldsGuest(s, s.guestLocks[g], g);
    }
  }

  lemma AbortKeepsLocks(rules: Rules, s: System, e: Event)
    requires LocksHeld(s) && e.Abort?
    ensures LocksHeld(Next(rules, s, e))
  {
    if e.tx in s.txs {
      OwnedIsHeld(s, e.tx);
      MoverKeepsLocks(s, Next(rules, s, e), e.tx);
    }
  }

  lemma CommitKeepsLocks(rules: Rules, s: System, e: Event)
    requires LocksHeld(s) && e.CommitWrites?
    ensures LocksHeld(Next(rules, s, e))
  {
    if e.tx in s.txs {
      OwnedIsHeld(s, e.tx);
      MoverKeepsLocks(s, Next(rules, s, e), e.tx);
    }
  }

  lemma InsertKeepsLocks(rules: Rules, s: System, e: Event)
    requires LocksHeld(s) && e.InsertAndCommit?
    ensures LocksHeld(Next(rules, s, e))
  {
    if e.tx in s.txs {
      OwnedIsHeld(s, e.tx);
      MoverKeepsLocks(s, Next(rules, s, e), e.tx);
    }
  }

  lemma LocksStayHeld(rules: Rules, s: System, e: Event)
    requires LocksHeld(s)
    ensures LocksHeld(Next(rules, s, e))
  {
    match e
    case TakeGameLock(_, _) => LockStepKeepsLocks(rules, s, e);
    case Load(_) => LoadStepKeepsLocks(rules, s, e);
    case LookUp(_) => LookUpKeepsLocks(rules, s, e);
    case NextStatement(_) => StatementKeepsLocks(rules, s, e);
    case TakeGuestLock(_) => GuestLockKeepsLocks(rules, s, e);
    case NextCheck(_) => CheckKeepsLocks(rules, s, e);
    case CommitWrites(_) => CommitKeepsLocks(rules, s, e);
    case InsertAndCommit(_) => InsertKeepsLocks(rules, s, e);
    case ReadTarget(_) => TargetStepKeepsLocks(rules, s, e);
    case Abort(_) => AbortKeepsLocks(rules, s, e);
    case ChangeSession(_, _) =>
      assert forall t, g :: HoldsGame(s, t, g) ==> HoldsGame(Next(rules, s, e), t, g);
      assert forall t, g :: HoldsGuest(s, t, g) ==> HoldsGuest(Next(rules, s, e), t, g);
    case CleanSession(_, _) =>
      assert forall t, g :: HoldsGame(s, t, g) ==> HoldsGame(Next(rules, s, e), t, g);
      assert forall t, g :: HoldsGuest(s, t, g) ==> HoldsGuest(Next(rules, s, e), t, g);
    case _ => OuterStepKeepsLocks(rules, s, e);
  }

  lemma {:induction false} LocksAlwaysHeld(rules: Rules, events: seq<Event>)
    ensures LocksHeld(RunSystem(rules, events))
  {
    if events != [] {
      var front := events[..|events| - 1];
      LocksAlwaysHeld(rules, front);
      LocksStayHeld(rules, RunSystem(rules, front), events[|events| - 1]);
    }
  }

  lemma {:induction false} GreatestOf(ids: set<nat>) returns (m: nat)
    requires ids != {}
    ensures m in ids && forall x :: x in ids ==> x <= m
  {
    var any :| any in ids;
    if ids == {any} {
      m := any;
    } else {
      var rest := GreatestOf(ids - {any});
      m := if rest > any then rest else any;
      assert forall x :: x in ids ==> x == any || x in ids - {any};
    }
  }

  /** There is no deadlock: while any transaction is unfinished, one of them waits for nobody. */
  lemma NoDeadlock(rules: Rules, events: seq<Event>, t: TxId) returns (u: TxId)
    requires rules.Faithful() && Unfinished(RunSystem(rules, events), t)
    ensures Unfinished(RunSystem(rules, events), u) && !Blocked(RunSystem(rules, events), u)
  {
    var s := RunSystem(rules, events);
    InterleavingsAreSerial(rules, events);
    LocksAlwaysHeld(rules, events);
    u := t;
    if Blocked(s, t) {
      if s.txs[t].Routed? {
        u := s.gameLocks[s.txs[t].game];
      } else {
        var top := GreatestOf(s.guestLocks.Keys);
        u := s.guestLocks[top];
        HolderOfGreatestIsFree(rules, s, u, top);
      }
    }
  }

  lemma HolderOfGreatestIsFree(rules: Rules, s: System, u: TxId, top: GuestId)
    requires TxsOk(rules, s) && LocksHeld(s) && OwnsGuest(s, u, top)
    requires forall g :: g in s.guestLocks ==> g <= top
    ensures Unfinished(s, u) && !Blocked(s, u)
  {
    assert HoldsGuest(s, u, top);
    assert TxOk(rules, s, u);
  }
}
