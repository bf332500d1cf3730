/** Resetting a session takes its guest out of play for good: the revoked row, the eligibility
    check of allocation and the assignments work together. */
module GameResets {
  import opened Domain
  import opened GameClock
  import opened ChessEngine
  import opened GameRows
  import opened GameInvariant
  import opened GameHistory
  import opened GameEndings
  import opened GameDatabase

  /** The guest's session is revoked, or gone. */
  predicate Revoked(db: Db, guest: GuestId) { guest in db.sessions ==> db.sessions[guest].revokedAt.Some? }

  /** Nothing here gives the guest a session that is not revoked. */
  predicate KeepsRevoked(calls: seq<Call>, guest: GuestId) {
    forall i :: 0 <= i < |calls| ==> StaysRevoked(calls[i], guest)
  }

  predicate StaysRevoked(call: Call, guest: GuestId) {
    call.SessionCall? && call.guest == guest ==> call.session.revokedAt.Some?
  }

  /** The guest is assigned no game, or at most this one. */
  predicate AtMost(db: Db, guest: GuestId, game: Option<GameId>) {
    guest in db.assignments ==> Some(db.assignments[guest]) == game
  }

  lemma CommitAssignsNothing(db: Db, game: GameId, plan: Plan, guest: GuestId, only: Option<GameId>)
    requires game in db.games && AtMost(db, guest, only)
    ensures AtMost(Commit(db, game, plan), guest, only)
    ensures guest !in db.assignments ==> guest !in Commit(db, game, plan).assignments
  {
  }

  lemma TransactBars(
    rules: Rules, db: Db, game: GameId, request: Request, us: nat, guest: GuestId, only: Option<GameId>)
    requires Revoked(db, guest) && AtMost(db, guest, only)
    ensures var after := Transact(rules, db, game, request, us);
            && Revoked(after, guest) && AtMost(after, guest, only)
            && (guest !in db.assignments ==> guest !in after.assignments)
  {
    if game in db.games {
      CommitAssignsNothing(db, game, PlanFor(rules, db.games[game], request, us), guest, only);
    }
  }

  lemma RevokedIsNotAllocated(rules: Rules, db: Db, input: AllocateGame, guest: GuestId, only: Option<GameId>)
    requires Revoked(db, guest) && AtMost(db, guest, only)
    ensures AtMost(Allocate(rules, db, input), guest, only)
    ensures guest !in db.assignments ==> guest !in Allocate(rules, db, input).assignments
  {
  }

  lemma StepBars(rules: Rules, db: Db, call: Call, guest: GuestId, only: Option<GameId>)
    requires Revoked(db, guest) && AtMost(db, guest, only) && StaysRevoked(call, guest)
    ensures Revoked(Step(rules, db, call), guest) && AtMost(Step(rules, db, call), guest, only)
    ensures guest !in db.assignments ==> guest !in Step(rules, db, call).assignments
  {
    match call
    case AllocateCall(input) => RevokedIsNotAllocated(rules, db, input, guest, only);
    case TransactCall(game, request, us) => TransactBars(rules, db, game, request, us, guest, only);
    case SessionCall(_, _) =>
    case CleanupCall(_, _) =>
  }

  /** A revoked guest is never assigned another game. */
  lemma {:induction false} RunBars(rules: Rules, db: Db, calls: seq<Call>, guest: GuestId, only: Option<GameId>)
    requires Revoked(db, guest) && AtMost(db, guest, only) && KeepsRevoked(calls, guest)
    ensures Revoked(Run(rules, db, calls), guest) && AtMost(Run(rules, db, calls), guest, only)
    ensures guest !in db.assignments ==> guest !in Run(rules, db, calls).assignments
  {
    if calls != [] {
      RunBars(rules, db, calls[..|calls| - 1], guest, only);
      StepBars(rules, Run(rules, db, calls[..|calls| - 1]), calls[|calls| - 1], guest, only);
    }
  }

  /** What the transaction of a reset leaves of the one game the guest may still be assigned:
      it is over, exactly unless it was live and the statement or the final update failed. */
  lemma ResetEndsTheGame(rules: Rules, db: Db, game: GameId, guest: GuestId, us: nat)
    requires rules.Faithful() && DbOk(rules, db) && game in db.games && db.games[game].ColorOf(guest).Some?
    ensures HasEnded(Transact(rules, db, game, TerminateForReset(guest), us), game) <==>
              || HasEnded(db, game)
              || (LockGameClock(db.games[game].game, us).Some? && !EndsBeforeStart(db.games[game].game, Millis(us)))
  {
    TransactEnds(rules, db, game, TerminateForReset(guest), us);
    assert GameOk(rules, db, game);
    ResetEndsExactly(db.games[game], guest, us);
  }

  lemma TransactEnds(rules: Rules, db: Db, game: GameId, request: Request, us: nat)
    requires rules.Faithful() && DbOk(rules, db) && game in db.games
    ensures HasEnded(Transact(rules, db, game, request, us), game) <==>
              HasEnded(db, game) || NewEnding(Answer(rules, db.games[game], request, us)).Some?
  {
    PlanIsSound(rules, db, game, request, us);
    CommitEnds(db, game, PlanFor(rules, db.games[game], request, us), game);
  }

  lemma ResetEndsOrFails(agg: Aggregate, guest: GuestId, us: nat)
    requires RowOk(agg.game) && !agg.game.status.Terminal() && agg.ColorOf(guest).Some?
    ensures var answer := PlanReset(agg, guest, us).response;
            answer.TransactionFailed? || NewEnding(answer).Some?
  {
    OneAbsentDerives(agg.ColorOf(guest).value);
  }

  /** A reset of a player that does not fail leaves the game over. */
  lemma SucceededResetEnds(rules: Rules, db: Db, game: GameId, guest: GuestId, us: nat)
    requires rules.Faithful() && DbOk(rules, db) && game in db.games && db.games[game].ColorOf(guest).Some?
    requires !TransactAnswer(rules, db, game, TerminateForReset(guest), us).TransactionFailed?
    ensures HasEnded(Transact(rules, db, game, TerminateForReset(guest), us), game)
  {
    assert GameOk(rules, db, game);
    TransactEnds(rules, db, game, TerminateForReset(guest), us);
    if !HasEnded(db, game) {
      ResetEndsOrFails(db.games[game], guest, us);
    }
  }
}
