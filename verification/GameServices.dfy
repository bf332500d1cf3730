/** The lifecycle service above the repositories: adjudicating a game runs several transactions
    in order, others among them, and announces an ending once. */
module GameServices {
  import opened Domain
  import opened GameClock
  import opened ChessEngine
  import opened GameRows
  import opened GameInvariant
  import opened GameHistory
  import opened GameDatabase
  import opened GameStore
  import opened EphemeralState

  // ----- adjudication -----

  datatype Adjudication = GameEnded(submission: TerminalSubmission) | NothingDue | AdjudicationFailed

  /** When the successive transactions of one adjudication observe the database clock. */
  datatype Instants = Instants(noShow: nat, timeout: nat, grace: nat, abandonment: nat)

  /** A transaction's answer, as adjudication reads it. */
  function AsAdjudication(answer: Response): Adjudication {
    match answer
    case Ended(submission) => GameEnded(submission)
    case TransactionFailed => AdjudicationFailed
    case _ => NothingDue
  }

  /** The players whose grace is over, None unless the game is reconnecting and there are some. */
  function GraceDueGuests(db: Db, game: GameId, us: nat): Option<set<GuestId>> {
    if game !in db.games || !db.games[game].game.status.Reconnecting? then None
    else
      var agg := db.games[game];
      var due :=
        (if GraceExpired(agg.white, Millis(us)) then {agg.white.guest} else {})
        + (if GraceExpired(agg.black, Millis(us)) then {agg.black.guest} else {});
      if due == {} then None else Some(due)
  }

  /** The two players not present on any socket, in slot order. */
  function AbsentGuests(agg: Aggregate, present: set<GuestId>): seq<GuestId> {
    (if agg.white.guest in present then [] else [agg.white.guest])
    + (if agg.black.guest in present then [] else [agg.black.guest])
  }

  /** The abandonment request adjudication goes on to make, if it makes one; present is None
      when the presence of the players could not be read. */
  function AbandonmentRequest(db: Db, game: GameId, us: nat, present: Option<set<GuestId>>): Option<Request> {
    match GraceDueGuests(db, game, us)
    case None => None
    case Some(due) =>
      if present.None? || due <= present.value then None
      else Some(AdjudicateAbandonment(AbsentGuests(db.games[game], present.value)))
  }

  /** What other requests do between the transactions of one adjudication. */
  datatype Others = Others(afterNoShow: seq<Call>, afterTimeout: seq<Call>, afterGrace: seq<Call>)

  /** The store an adjudication leaves, its result, and what others did before it returned. */
  datatype Adjudicated = Adjudicated(db: Db, result: Adjudication, meanwhile: seq<Call>)

  /** One adjudication: no-show, then timeout, then abandonment by the absent, stopping at the
      first that ends the game or fails. */
  function Adjudicate(
    rules: Rules, db: Db, game: GameId, at: Instants, present: Option<set<GuestId>>, others: Others): Adjudicated
  {
    var db1 := Transact(rules, db, game, AdjudicateNoShow, at.noShow);
    var first := AsAdjudication(TransactAnswer(rules, db, game, AdjudicateNoShow, at.noShow));
    if !first.NothingDue? then Adjudicated(db1, first, [])
    else
      After(others.afterNoShow, AfterNoShow(rules, Run(rules, db1, others.afterNoShow), game, at, present, others))
  }

  function After(calls: seq<Call>, a: Adjudicated): Adjudicated { a.(meanwhile := calls + a.meanwhile) }

  function AfterNoShow(
    rules: Rules, db: Db, game: GameId, at: Instants, present: Option<set<GuestId>>, others: Others): Adjudicated
  {
    var db1 := Transact(rules, db, game, AdjudicateTimeout, at.timeout);
    var second := AsAdjudication(TransactAnswer(rules, db, game, AdjudicateTimeout, at.timeout));
    if !second.NothingDue? then Adjudicated(db1, second, [])
    else
      After(others.afterTimeout, AfterTimeout(rules, Run(rules, db1, others.afterTimeout), game, at, present, others))
  }

  function AfterTimeout(
    rules: Rules, db: Db, game: GameId, at: Instants, present: Option<set<GuestId>>, others: Others): Adjudicated
  {
    match AbandonmentRequest(db, game, at.grace, present)
    case None => Adjudicated(db, NothingDue, [])
    case Some(request) =>
      var now := Run(rules, db, others.afterGrace);
      Adjudicated(
        Transact(rules, now, game, request, at.abandonment),
        AsAdjudication(TransactAnswer(rules, now, game, request, at.abandonment)),
        others.afterGrace)
  }

  /** The keys after a result: an ending clears those of its game. */
  ghost function KeysAfter(r: Redis, ttls: Ttls, game: GameId, result: Adjudication, now: int): Redis {
    if result.GameEnded? then AfterTerminal(r, ttls, game, result.submission.guests, now) else r
  }

  class Lifecycle {
    const store: Store
    const cache: Cache
    var announced: seq<TerminalSubmission>

    constructor (store: Store, cache: Cache)
      ensures this.store == store && this.cache == cache && announced == []
    {
      this.store := store;
      this.cache := cache;
      announced := [];
    }

    /** Clears the ephemeral keys, and announces the ending unless it is a replay. */
    method CompleteTerminal(game: GameId, submission: TerminalSubmission, now: int)
      modifies this`announced, cache
      ensures announced == if submission.duplicate then old(announced) else old(announced) + [submission]
      ensures cache.View() == AfterTerminal(old(cache.View()), cache.ttls, game, submission.guests, now)
    {
      cache.AfterGameEnded(game, submission.guests, now);
      if !submission.duplicate {
        announced := announced + [submission];
      }
    }

    method ResignGame(game: GameId, input: ResignGame, us: nat, now: int) returns (answer: Response)
      modifies this`announced, store, cache
      ensures store.Contents() == Transact(store.rules, old(store.Contents()), game, ResignRequest(input), us)
      ensures answer == TransactAnswer(store.rules, old(store.Contents()), game, ResignRequest(input), us)
      ensures announced == old(announced) + AnnouncedBy(AsAdjudication(answer))
      ensures cache.View() == KeysAfter(old(cache.View()), cache.ttls, game, AsAdjudication(answer), now)
    {
      answer := store.Resign(game, input, us);
      if answer.Ended? {
        CompleteTerminal(game, answer.terminal, now);
      }
    }

    /** No-show, then timeout, then abandonment by the absent; stops at the first ending.
        While one of its transactions is awaited, other requests run. */
    method AdjudicateGame(game: GameId, at: Instants, present: Option<set<GuestId>>, others: Others, now: int)
      returns (result: Adjudication)
      modifies this`announced, store, cache
      ensures var a := Adjudicate(store.rules, old(store.Contents()), game, at, present, others);
              store.Contents() == a.db && result == a.result
      ensures announced == old(announced) + AnnouncedBy(result)
      ensures cache.View() == KeysAfter(old(cache.View()), cache.ttls, game, result, now)
    {
      var noShow := store.AdjudicateGameNoShow(game, at.noShow);
      result := Complete(game, noShow, now);
      if !result.NothingDue? {
        return;
      }
      store.Await(others.afterNoShow);
      result := AdjudicateTurn(game, at, present, others, now);
    }

    method AdjudicateTurn(game: GameId, at: Instants, present: Option<set<GuestId>>, others: Others, now: int)
      returns (result: Adjudication)
      modifies this`announced, store, cache
      ensures var a := AfterNoShow(store.rules, old(store.Contents()), game, at, present, others);
              store.Contents() == a.db && result == a.result
      ensures announced == old(announced) + AnnouncedBy(result)
      ensures cache.View() == KeysAfter(old(cache.View()), cache.ttls, game, result, now)
    {
      var timeout := store.AdjudicateGameTimeout(game, at.timeout);
      result := Complete(game, timeout, now);
      if !result.NothingDue? {
        return;
      }
      store.Await(others.afterTimeout);
      result := AdjudicateGrace(game, at, present, others, now);
    }

    method AdjudicateGrace(game: GameId, at: Instants, present: Option<set<GuestId>>, others: Others, now: int)
      returns (result: Adjudication)
      modifies this`announced, store, cache
      ensures var a := AfterTimeout(store.rules, old(store.Contents()), game, at, present, others);
              store.Contents() == a.db && result == a.result
      ensures announced == old(announced) + AnnouncedBy(result)
      ensures cache.View() == KeysAfter(old(cache.View()), cache.ttls, game, result, now)
    {
      var due := FindGraceState(game, at.grace);
      if due.None? || present.None? || due.value <= present.value {
        return NothingDue;
      }
      var absent := AbsentGuests(store.games[game], present.value);
      store.Await(others.afterGrace);
      var abandonment := store.AdjudicateGameAbandonment(game, absent, at.abandonment);
      result := Complete(game, abandonment, now);
    }

    /** Completes an ending, if the transaction brought one. */
    method Complete(game: GameId, answer: Response, now: int) returns (result: Adjudication)
      modifies this`announced, cache
      ensures result == AsAdjudication(answer)
      ensures announced == old(announced) + AnnouncedBy(result)
      ensures cache.View() == KeysAfter(old(cache.View()), cache.ttls, game, result, now)
    {
      result := AsAdjudication(answer);
      if result.GameEnded? {
        CompleteTerminal(game, result.submission, now);
      }
    }

    method FindGraceState(game: GameId, us: nat) returns (due: Option<set<GuestId>>)
      ensures due == GraceDueGuests(store.Contents(), game, us)
    {
      if game !in store.games || !store.games[game].game.status.Reconnecting? {
        return None;
      }
      var agg := store.games[game];
      var white := if GraceExpired(agg.white, Millis(us)) then {agg.white.guest} else {};
      var black := if GraceExpired(agg.black, Millis(us)) then {agg.black.guest} else {};
      due := if white + black == {} then None else Some(white + black);
    }
  }

  /** What is announced for a result: a first-time ending once, anything else not at all. */
  function AnnouncedBy(result: Adjudication): seq<TerminalSubmission> {
    if result.GameEnded? && !result.submission.duplicate then [result.submission] else []
  }

  /** The answer is an ending exactly when the game has just ended, else nothing changed. */
  predicate EndsAsAnswered(db: Db, after: Db, game: GameId, result: Adjudication) {
    && (result.GameEnded? <==> !HasEnded(db, game) && HasEnded(after, game))
    && (result.GameEnded? ==>
          !result.submission.duplicate && StoredEnding(after.games[game].game, result.submission.ended))
    && (!result.GameEnded? ==> after == db)
  }

  /** A transaction that ends games off the board answers with an ending exactly when it ends this one. */
  lemma OneEnds(rules: Rules, db: Db, game: GameId, request: Request, us: nat)
    requires rules.Faithful() && DbOk(rules, db)
    requires request.AdjudicateNoShow? || request.AdjudicateTimeout? || request.AdjudicateAbandonment?
    ensures DbOk(rules, Transact(rules, db, game, request, us))
    ensures EndsAsAnswered(db, Transact(rules, db, game, request, us), game,
                           AsAdjudication(TransactAnswer(rules, db, game, request, us)))
  {
    TransactKeeps(rules, db, game, request, us);
    OneAnswers(rules, db, game, request, us);
  }

  lemma OneAnswers(rules: Rules, db: Db, game: GameId, request: Request, us: nat)
    requires rules.Faithful() && DbOk(rules, db)
    requires request.AdjudicateNoShow? || request.AdjudicateTimeout? || request.AdjudicateAbandonment?
    ensures EndsAsAnswered(db, Transact(rules, db, game, request, us), game,
                           AsAdjudication(TransactAnswer(rules, db, game, request, us)))
  {
    if game in db.games {
      PlanIsSound(rules, db, game, request, us);
      AdjudicationShape(rules, db.games[game], request, us);
      PlanEnds(db, game, PlanFor(rules, db.games[game], request, us));
    }
  }

  predicate EndsFirstTime(plan: Plan) { plan.response.Ended? && !plan.response.terminal.duplicate }

  predicate LeavesAlone(plan: Plan) {
    plan == ReadOnly(plan.response) && !plan.response.Ended? && !plan.response.Moved?
  }

  lemma AdjudicationShape(rules: Rules, agg: Aggregate, request: Request, us: nat)
    requires request.AdjudicateNoShow? || request.AdjudicateTimeout? || request.AdjudicateAbandonment?
    ensures var plan := PlanFor(rules, agg, request, us);
            EndsFirstTime(plan) || LeavesAlone(plan)
  {
  }

  lemma PlanEnds(db: Db, game: GameId, plan: Plan)
    requires game in db.games && StepOk(db.games[game], plan)
    requires EndsFirstTime(plan) || LeavesAlone(plan)
    ensures EndsAsAnswered(db, Commit(db, game, plan), game, AsAdjudication(plan.response))
  {
    CommitEnds(db, game, plan, game);
    if LeavesAlone(plan) {
      ReadOnlyCommit(db, game, plan.response);
    }
  }

  /** A result announces an ending exactly when the adjudication itself ended the game, as
      others had left it, and then once, with what the final row says; otherwise the store is
      as the others left it. */
  ghost predicate AnnouncesEnding(rules: Rules, db: Db, game: GameId, a: Adjudicated) {
    var left := Run(rules, db, a.meanwhile);
    && DbOk(rules, a.db)
    && (AnnouncedBy(a.result) != [] <==> !HasEnded(left, game) && HasEnded(a.db, game))
    && (a.result.GameEnded? ==>
          && AnnouncedBy(a.result) == [a.result.submission]
          && StoredEnding(a.db.games[game].game, a.result.submission.ended))
    && (!a.result.GameEnded? ==> a.db == left)
  }

  /** One adjudication, of up to three transactions with anything running between them,
      announces an ending exactly when it ends the game, and then once; otherwise it changes
      nothing. */
  lemma AdjudicationAnnouncesItsEnding(
    rules: Rules, db: Db, game: GameId, at: Instants, present: Option<set<GuestId>>, others: Others)
    requires rules.Faithful() && DbOk(rules, db)
    ensures AnnouncesEnding(rules, db, game, Adjudicate(rules, db, game, at, present, others))
  {
    OneEnds(rules, db, game, AdjudicateNoShow, at.noShow);
    if AsAdjudication(TransactAnswer(rules, db, game, AdjudicateNoShow, at.noShow)).NothingDue? {
      var now := Run(rules, db, others.afterNoShow);
      RunIsSound(rules, db, others.afterNoShow);
      TimeoutAnnounces(rules, now, game, at, present, others);
      AnnouncesAfter(rules, db, game, others.afterNoShow, AfterNoShow(rules, now, game, at, present, others));
    }
  }

  lemma AnnouncesAfter(rules: Rules, db: Db, game: GameId, calls: seq<Call>, a: Adjudicated)
    requires AnnouncesEnding(rules, Run(rules, db, calls), game, a)
    ensures AnnouncesEnding(rules, db, game, After(calls, a))
  {
    RunsCompose(rules, db, calls, a.meanwhile);
  }

  lemma TimeoutAnnounces(
    rules: Rules, db: Db, game: GameId, at: Instants, present: Option<set<GuestId>>, others: Others)
    requires rules.Faithful() && DbOk(rules, db)
    ensures AnnouncesEnding(rules, db, game, AfterNoShow(rules, db, game, at, present, others))
  {
    OneEnds(rules, db, game, AdjudicateTimeout, at.timeout);
    if AsAdjudication(TransactAnswer(rules, db, game, AdjudicateTimeout, at.timeout)).NothingDue? {
      var now := Run(rules, db, others.afterTimeout);
      RunIsSound(rules, db, others.afterTimeout);
      AbandonmentAnnounces(rules, now, game, at, present, others);
      AnnouncesAfter(rules, db, game, others.afterTimeout, AfterTimeout(rules, now, game, at, present, others));
    }
  }

  lemma AbandonmentAnnounces(
    rules: Rules, db: Db, game: GameId, at: Instants, present: Option<set<GuestId>>, others: Others)
    requires rules.Faithful() && DbOk(rules, db)
    ensures AnnouncesEnding(rules, db, game, AfterTimeout(rules, db, game, at, present, others))
  {
    var request := AbandonmentRequest(db, game, at.grace, present);
    if request.Some? {
      RunIsSound(rules, db, others.afterGrace);
      OneEnds(rules, Run(rules, db, others.afterGrace), game, request.value, at.abandonment);
    }
  }

  /** Adjudication asks for abandonment only of players absent from presence, and only when
      one of those is past the grace recorded for it. */
  lemma OnlyTheAbsentAreNamed(db: Db, game: GameId, us: nat, present: Option<set<GuestId>>)
    requires AbandonmentRequest(db, game, us, present).Some?
    ensures var request := AbandonmentRequest(db, game, us, present).value;
            var agg := db.games[game];
            && agg.game.status.Reconnecting? && present.Some?
            && request.AdjudicateAbandonment?
            && (forall g :: g in request.absentGuests <==>
                              g in {agg.white.guest, agg.black.guest} && g !in present.value)
            && NamesSomeoneExpired(agg, request.absentGuests, Millis(us))
  {
    var due := GraceDueGuests(db, game, us).value;
    assert !(due <= present.value);
    var g :| g in due && g !in present.value;
  }
}
