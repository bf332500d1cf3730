/** What whole calls guarantee, stated where it matters: over every interleaving of
    transactions in flight. */
module InterleavedRuns {
  import opened Domain
  import opened ChessEngine
  import opened GameRows
  import opened GameHistory
  import opened GameCommands
  import opened GameDatabase
  import opened GameResets
  import opened Interleaving

  lemma LastStep(rules: Rules, first: seq<Event>, later: seq<Event>)
    requires later != []
    ensures RunSystem(rules, first + later) ==
            Next(rules, RunSystem(rules, first + later[..|later| - 1]), later[|later| - 1])
  {
    var all := first + later;
    assert all[..|all| - 1] == first + later[..|later| - 1] && all[|all| - 1] == later[|later| - 1];
    Unrolled(rules, all);
  }

  lemma Unrolled(rules: Rules, events: seq<Event>)
    requires events != []
    ensures RunSystem(rules, events) == Next(rules, RunSystem(rules, events[..|events| - 1]), events[|events| - 1])
  {
  }

  // ----- endings are announced once -----

  /** The event commits a transaction whose answer announces a new ending of the game. */
  predicate CommitsEnd(s: System, e: Event, game: GameId) {
    && e.CommitWrites? && e.tx in s.txs && MayCommit(s, s.txs[e.tx])
    && s.txs[e.tx].game == game && NewEnding(s.txs[e.tx].plan.response).Some?
  }

  function EndingsCommitted(rules: Rules, events: seq<Event>, game: GameId): nat {
    if events == [] then 0
    else
      var front := events[..|events| - 1];
      EndingsCommitted(rules, front, game)
      + if CommitsEnd(RunSystem(rules, front), events[|events| - 1], game) then 1 else 0
  }

  lemma StepEndsWhenCommitted(rules: Rules, s: System, e: Event, game: GameId)
    requires rules.Faithful() && SystemOk(rules, s)
    ensures CommitsEnd(s, e, game) <==> !HasEnded(s.db, game) && HasEnded(Next(rules, s, e).db, game)
    ensures HasEnded(s.db, game) ==> HasEnded(Next(rules, s, e).db, game)
  {
    StepRefines(rules, s, e);
    var calls := Committed(s, e);
    if calls != [] {
      assert calls == [calls[0]];
      RunOne(rules, s.db, calls[0]);
      StepEndsWhenAnnounced(rules, s.db, calls[0], game);
      if e.CommitWrites? {
        CommitIsAtomic(rules, s, e.tx);
      }
    }
  }

  /** However transactions interleave, the commits announcing a new ending of a game number
      one if it has ended, and none otherwise. */
  lemma {:induction false} EndingIsCommittedOnce(rules: Rules, events: seq<Event>, game: GameId)
    requires rules.Faithful()
    ensures EndingsCommitted(rules, events, game) == (if HasEnded(RunSystem(rules, events).db, game) then 1 else 0)
  {
    if events != [] {
      var front := events[..|events| - 1];
      EndingIsCommittedOnce(rules, front, game);
      InterleavingsAreSerial(rules, front);
      StepEndsWhenCommitted(rules, RunSystem(rules, front), events[|events| - 1], game);
    }
  }

  // ----- commands are answered once -----

  lemma {:induction false} SystemGrows(rules: Rules, first: seq<Event>, later: seq<Event>)
    requires rules.Faithful()
    ensures DbGrows(RunSystem(rules, first).db, RunSystem(rules, first + later).db)
  {
    if later == [] {
      assert first + later == first;
      SameGamesGrow(RunSystem(rules, first).db, RunSystem(rules, first).db);
    } else {
      var front := later[..|later| - 1];
      LastStep(rules, first, later);
      var before := RunSystem(rules, first + front);
      SystemGrows(rules, first, front);
      InterleavingsAreSerial(rules, first + front);
      StepRefines(rules, before, later[|later| - 1]);
      RunIsSound(rules, before.db, Committed(before, later[|later| - 1]));
      DbGrowsIsTransitive(RunSystem(rules, first).db, before.db, RunSystem(rules, first + later).db);
    }
  }

  /** A transaction about to commit this client command. */
  predicate CommitsCommand(s: System, t: TxId) { t in s.txs && MayCommit(s, s.txs[t]) && IsCommand(s.txs[t].request) }

  /** The same command of the same player on the same game, whatever else it carries. */
  predicate Retries(a: Tx, b: Tx)
    requires a.Writing? && b.Writing? && IsCommand(a.request) && IsCommand(b.request)
  {
    && a.game == b.game && a.request.Submit? == b.request.Submit?
    && CommandId(a.request) == CommandId(b.request) && CommandGuest(a.request) == CommandGuest(b.request)
  }

  /** Once a command has been accepted by a commit, any other transaction carrying it, begun
      before or after, alongside whatever else, commits with the stored answer and changes
      nothing; or its locking statement failed. */
  lemma RetryCommitsTheStoredAnswer(rules: Rules, first: seq<Event>, t: TxId, later: seq<Event>, u: TxId)
    requires rules.Faithful()
    requires var s := RunSystem(rules, first); CommitsCommand(s, t) && NewlyAccepted(s.txs[t].plan.response)
    requires CommitsCommand(RunSystem(rules, first + [CommitWrites(t)] + later), u)
    requires Retries(RunSystem(rules, first).txs[t], RunSystem(rules, first + [CommitWrites(t)] + later).txs[u])
    ensures var original := RunSystem(rules, first).txs[t];
            var now := RunSystem(rules, first + [CommitWrites(t)] + later);
            && Next(rules, now, CommitWrites(u)).db == now.db
            && now.txs[u].plan.response ==
               if LockGameClock(now.db.games[now.txs[u].game].game, now.txs[u].us).Some?
               then AsDuplicate(original.plan.response)
               else TransactionFailed
  {
    var s, now := RunSystem(rules, first), RunSystem(rules, first + [CommitWrites(t)] + later);
    var original, retry := s.txs[t], now.txs[u];
    InterleavingsAreSerial(rules, first);
    InterleavingsAreSerial(rules, first + [CommitWrites(t)] + later);
    CommitIsAtomic(rules, s, t);
    CommitIsAtomic(rules, now, u);
    AcceptedIntoStore(rules, s.db, original.game, original.request, original.us);
    AfterCommit(rules, first, t);
    SystemGrows(rules, first + [CommitWrites(t)], later);
    StoredIsReturned(
      rules, RunSystem(rules, first + [CommitWrites(t)]).db, now.db, original.game, original.request,
      original.plan.response, retry.request, retry.us);
  }

  /** Once the game has ended, as it has when the command itself ended it, a transaction carrying
      an accepted command never fails: it commits with the stored answer. */
  lemma RetriesAfterTheEndCommit(rules: Rules, first: seq<Event>, t: TxId, later: seq<Event>, u: TxId)
    requires rules.Faithful()
    requires var s := RunSystem(rules, first); CommitsCommand(s, t) && NewlyAccepted(s.txs[t].plan.response)
    requires CommitsCommand(RunSystem(rules, first + [CommitWrites(t)] + later), u)
    requires Retries(RunSystem(rules, first).txs[t], RunSystem(rules, first + [CommitWrites(t)] + later).txs[u])
    requires || NewEnding(RunSystem(rules, first).txs[t].plan.response).Some?
             || HasEnded(RunSystem(rules, first + [CommitWrites(t)] + later).db, RunSystem(rules, first).txs[t].game)
    ensures RunSystem(rules, first + [CommitWrites(t)] + later).txs[u].plan.response ==
            AsDuplicate(RunSystem(rules, first).txs[t].plan.response)
  {
    var s, now := RunSystem(rules, first), RunSystem(rules, first + [CommitWrites(t)] + later);
    if NewEnding(s.txs[t].plan.response).Some? {
      InterleavingsAreSerial(rules, first);
      StepEndsWhenCommitted(rules, s, CommitWrites(t), s.txs[t].game);
      AfterCommit(rules, first, t);
      SystemGrows(rules, first + [CommitWrites(t)], later);
      EndedOutlives(RunSystem(rules, first + [CommitWrites(t)]).db, now.db, s.txs[t].game);
    }
    RetryCommitsTheStoredAnswer(rules, first, t, later, u);
    EndedGamesAlwaysLock(now.db.games[now.txs[u].game].game, now.txs[u].us);
  }

  lemma EndedOutlives(a: Db, b: Db, game: GameId)
    requires DbGrows(a, b) && HasEnded(a, game)
    ensures HasEnded(b, game)
  {
    assert Grows(a.games[game], b.games[game]);
  }

  lemma AfterCommit(rules: Rules, first: seq<Event>, t: TxId)
    ensures RunSystem(rules, first + [CommitWrites(t)]) == Next(rules, RunSystem(rules, first), CommitWrites(t))
  {
    LastStep(rules, first, [CommitWrites(t)]);
    assert first + [CommitWrites(t)][..0] == first;
  }

  // ----- a reset guest stays out -----

  /** The event gives the guest no session that is not revoked. */
  predicate LeavesRevoked(e: Event, guest: GuestId) {
    e.ChangeSession? && e.guest == guest ==> e.session.revokedAt.Some?
  }

  predicate AllLeaveRevoked(events: seq<Event>, guest: GuestId) {
    forall i :: 0 <= i < |events| ==> LeavesRevoked(events[i], guest)
  }

  lemma SystemStepBars(rules: Rules, s: System, e: Event, guest: GuestId, only: Option<GameId>)
    requires rules.Faithful() && SystemOk(rules, s)
    requires Revoked(s.db, guest) && AtMost(s.db, guest, only) && LeavesRevoked(e, guest)
    ensures Revoked(Next(rules, s, e).db, guest) && AtMost(Next(rules, s, e).db, guest, only)
  {
    StepRefines(rules, s, e);
    RunBars(rules, s.db, Committed(s, e), guest, only);
  }

  /** A revoked guest is assigned nothing new, whatever is already in flight: an allocation that
      has passed its eligibility check holds the session row, so no revocation comes between. */
  lemma {:induction false} SystemBars(
    rules: Rules, first: seq<Event>, later: seq<Event>, guest: GuestId, only: Option<GameId>)
    requires rules.Faithful()
    requires Revoked(RunSystem(rules, first).db, guest) && AtMost(RunSystem(rules, first).db, guest, only)
    requires AllLeaveRevoked(later, guest)
    ensures var after := RunSystem(rules, first + later).db;
            Revoked(after, guest) && AtMost(after, guest, only)
  {
    if later == [] {
      assert first + later == first;
    } else {
      var front := later[..|later| - 1];
      LastStep(rules, first, later);
      SystemBars(rules, first, front, guest, only);
      InterleavingsAreSerial(rules, first + front);
      SystemStepBars(rules, RunSystem(rules, first + front), later[|later| - 1], guest, only);
    }
  }

  /** The transaction is over, or still on this game with this request. */
  predicate Pursues(s: System, t: TxId, game: GameId, request: Request) {
    && t in s.txs && !s.txs[t].Started? && !s.txs[t].Reserving? && !s.txs[t].Checking?
    && (!s.txs[t].Finished? ==> s.txs[t].game == game && s.txs[t].request == request)
  }

  /** Phase by phase, a transaction keeps its game and its request. */
  lemma StepPursues(rules: Rules, s: System, e: Event, t: TxId, game: GameId, request: Request)
    requires Pursues(s, t, game, request)
    ensures Pursues(Next(rules, s, e), t, game, request)
  {
    match e
    case TakeGameLock(_, _) => ReaderPursues(rules, s, e, t, game, request);
    case Load(_) => ReaderPursues(rules, s, e, t, game, request);
    case LookUp(_) => ReaderPursues(rules, s, e, t, game, request);
    case NextStatement(_) => WriterPursues(rules, s, e, t, game, request);
    case CommitWrites(_) => WriterPursues(rules, s, e, t, game, request);
    case _ =>
  }

  lemma ReaderPursues(rules: Rules, s: System, e: Event, t: TxId, game: GameId, request: Request)
    requires Pursues(s, t, game, request) && (e.TakeGameLock? || e.Load? || e.LookUp?)
    ensures Pursues(Next(rules, s, e), t, game, request)
  {
  }

  lemma WriterPursues(rules: Rules, s: System, e: Event, t: TxId, game: GameId, request: Request)
    requires Pursues(s, t, game, request) && (e.NextStatement? || e.CommitWrites?)
    ensures Pursues(Next(rules, s, e), t, game, request)
  {
  }

  lemma {:induction false} SystemPursues(
    rules: Rules, first: seq<Event>, later: seq<Event>, t: TxId, game: GameId, request: Request)
    requires Pursues(RunSystem(rules, first), t, game, request)
    ensures Pursues(RunSystem(rules, first + later), t, game, request)
  {
    if later == [] {
      assert first + later == first;
    } else {
      var front := later[..|later| - 1];
      LastStep(rules, first, later);
      SystemPursues(rules, first, front, t, game, request);
      StepPursues(rules, RunSystem(rules, first + front), later[|later| - 1], t, game, request);
    }
  }

  /** The transaction is about to commit, and not as a failure. */
  predicate CommitsReset(s: System, t: TxId) {
    t in s.txs && MayCommit(s, s.txs[t]) && !s.txs[t].plan.response.TransactionFailed?
  }

  lemma UnassignedPlaysNothing(rules: Rules, events: seq<Event>, guest: GuestId, game: GameId)
    requires rules.Faithful() && guest !in RunSystem(rules, events).db.assignments
    ensures !PlaysActive(RunSystem(rules, events).db, guest, game)
  {
    InterleavingsAreSerial(rules, events);
  }

  /** What a reset read as its guest's game is over once it has committed. */
  lemma CommittedResetFreesGuest(rules: Rules, before: seq<Event>, middle: seq<Event>, t: TxId, guest: GuestId)
    requires rules.Faithful()
    requires Revoked(RunSystem(rules, before).db, guest) && guest in RunSystem(rules, before).db.assignments
    requires ResetBegun(RunSystem(rules, before), t, guest) && AllLeaveRevoked(middle, guest)
    requires CommitsReset(RunSystem(rules, before + [ReadTarget(t)] + middle), t)
    ensures var after := Next(rules, RunSystem(rules, before + [ReadTarget(t)] + middle), CommitWrites(t)).db;
            Revoked(after, guest) && guest !in after.assignments
  {
    var read := RunSystem(rules, before).db.assignments[guest];
    var events := before + [ReadTarget(t)] + middle;
    ResetStaysOnItsGame(rules, before, middle, t, guest);
    assert events == before + ([ReadTarget(t)] + middle);
    SystemBars(rules, before, [ReadTarget(t)] + middle, guest, Some(read));
    PlayerStays(rules, before, [ReadTarget(t)] + middle, guest, read);
    ResetCommitFrees(rules, RunSystem(rules, events), t, guest, read);
  }

  lemma ResetStaysOnItsGame(rules: Rules, before: seq<Event>, middle: seq<Event>, t: TxId, guest: GuestId)
    requires guest in RunSystem(rules, before).db.assignments && ResetBegun(RunSystem(rules, before), t, guest)
    ensures var read := RunSystem(rules, before).db.assignments[guest];
            Pursues(RunSystem(rules, before + [ReadTarget(t)] + middle), t, read, TerminateForReset(guest))
  {
    AfterRead(rules, before, t);
    var read := RunSystem(rules, before).db.assignments[guest];
    SystemPursues(rules, before + [ReadTarget(t)], middle, t, read, TerminateForReset(guest));
  }

  predicate ResetBegun(s: System, t: TxId, guest: GuestId) {
    t in s.txs && s.txs[t] == Started(ActiveGameOf(guest), TerminateForReset(guest))
  }

  lemma AfterRead(rules: Rules, before: seq<Event>, t: TxId)
    ensures RunSystem(rules, before + [ReadTarget(t)]) == Next(rules, RunSystem(rules, before), ReadTarget(t))
  {
    LastStep(rules, before, [ReadTarget(t)]);
    assert before + [ReadTarget(t)][..0] == before;
  }

  lemma PlayerStays(rules: Rules, before: seq<Event>, later: seq<Event>, guest: GuestId, game: GameId)
    requires rules.Faithful()
    requires var db := RunSystem(rules, before).db; guest in db.assignments && db.assignments[guest] == game
    ensures var now := RunSystem(rules, before + later).db;
            && SystemOk(rules, RunSystem(rules, before + later))
            && game in now.games && now.games[game].ColorOf(guest).Some?
  {
    InterleavingsAreSerial(rules, before);
    InterleavingsAreSerial(rules, before + later);
    SystemGrows(rules, before, later);
    assert PlaysActive(RunSystem(rules, before).db, guest, game);
  }

  lemma ResetCommitFrees(rules: Rules, s: System, t: TxId, guest: GuestId, read: GameId)
    requires rules.Faithful() && SystemOk(rules, s) && CommitsReset(s, t)
    requires Pursues(s, t, read, TerminateForReset(guest))
    requires Revoked(s.db, guest) && AtMost(s.db, guest, Some(read)) && s.db.games[read].ColorOf(guest).Some?
    ensures var after := Next(rules, s, CommitWrites(t)).db;
            Revoked(after, guest) && guest !in after.assignments
  {
    CommitIsAtomic(rules, s, t);
    SucceededResetEnds(rules, s.db, read, guest, s.txs[t].us);
    SystemStepBars(rules, s, CommitWrites(t), guest, Some(read));
    CommitStep(rules, s, t);
    var after := Next(rules, s, CommitWrites(t)).db;
    assert guest in after.assignments ==> PlaysActive(after, guest, after.assignments[guest]);
  }

  /** A reset takes its guest out of play for good, among any other transactions.  The row is
      revoked; the reset then reads the guest's assignment and, if there is one, commits on
      that game without failing.  In every continuation that leaves the row revoked the guest
      is in no active game. */
  lemma ResetGuestStaysOut(
    rules: Rules, before: seq<Event>, t: TxId, middle: seq<Event>, later: seq<Event>, guest: GuestId, game: GameId)
    requires rules.Faithful()
    requires Revoked(RunSystem(rules, before).db, guest) && ResetBegun(RunSystem(rules, before), t, guest)
    requires AllLeaveRevoked(middle, guest) && AllLeaveRevoked(later, guest)
    requires guest in RunSystem(rules, before).db.assignments ==>
               CommitsReset(RunSystem(rules, before + [ReadTarget(t)] + middle), t)
    ensures var events := before + [ReadTarget(t)] + middle + [CommitWrites(t)] + later;
            !PlaysActive(RunSystem(rules, events).db, guest, game)
  {
    var events := before + [ReadTarget(t)] + middle + [CommitWrites(t)];
    if guest in RunSystem(rules, before).db.assignments {
      CommittedResetFreesGuest(rules, before, middle, t, guest);
      AfterCommit(rules, before + [ReadTarget(t)] + middle, t);
    } else {
      var rest := [ReadTarget(t)] + middle + [CommitWrites(t)];
      assert events == before + rest;
      SystemBars(rules, before, rest, guest, None);
    }
    SystemBars(rules, events, later, guest, None);
    UnassignedPlaysNothing(rules, events + later, guest, game);
  }
}
