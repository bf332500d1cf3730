/** Recovering a player's snapshot: when a cached one may be served, and why it is then the
    one that would be built afresh. */
module Recovery {
  import opened Domain
  import opened ChessEngine
  import opened GameRows
  import opened GameInvariant
  import opened GameHistory
  import opened GameDatabase
  import opened Snapshots
  import opened EphemeralState

  /** The payload and version are this game's own, up to the time of day. */
  predicate Shows(profiles: Profiles, agg: Aggregate, guest: GuestId, version: nat, payload: Payload) {
    && agg.ColorOf(guest).Some? && agg.white.guest != agg.black.guest && ViewOf(agg.game, 0).Ok?
    && version == agg.game.version
    && Timeless(payload) == Timeless(Present(profiles, agg, ViewOf(agg.game, 0).value, guest))
  }

  /** The game has ended and the payload shows it as it ended. */
  predicate ShowsEnded(profiles: Profiles, db: Db, game: GameId, guest: GuestId, version: nat, payload: Payload) {
    HasEnded(db, game) && Shows(profiles, db.games[game], guest, version, payload)
  }

  /** Every cached payload of a finished game shows the game as it ended; the others may be stale. */
  predicate EntryOk(profiles: Profiles, db: Db, game: GameId, entry: Entry) {
    forall guest :: guest in entry.payloads && entry.payloads[guest].status.Terminal() ==>
      ShowsEnded(profiles, db, game, guest, entry.gameVersion, entry.payloads[guest])
  }

  /** A snapshot read a while ago: if the game had ended, it is still the game. */
  predicate CaptureOk(db: Db, game: GameId, agg: Aggregate, at: int) {
    && game in db.games && agg.white.guest != agg.black.guest && ViewOf(agg.game, at).Ok?
    && (agg.game.status.Terminal() ==> db.games[game] == agg)
  }

  /** Freshly built payloads of a finished game show it, whatever the instant they were built at. */
  lemma FreshShows(profiles: Profiles, rules: Rules, agg: Aggregate, guest: GuestId, at: int)
    requires AggOk(rules, agg) && agg.ColorOf(guest).Some? && agg.game.status.Terminal()
    ensures ViewOf(agg.game, at).Ok?
    ensures Shows(profiles, agg, guest, agg.game.version, Present(profiles, agg, ViewOf(agg.game, at).value, guest))
  {
    FinishedViewIsTimeless(profiles, rules, agg, guest, at, 0);
  }

  lemma BuiltEntryIsOk(profiles: Profiles, rules: Rules, db: Db, game: GameId, agg: Aggregate, at: int)
    requires GamesOk(rules, db) && CaptureOk(db, game, agg, at)
    ensures EntryOk(profiles, db, game, EntryOf(profiles, agg, ViewOf(agg.game, at).value))
  {
    if agg.game.status.Terminal() {
      assert GameOk(rules, db, game);
      FreshShows(profiles, rules, agg, agg.white.guest, at);
      FreshShows(profiles, rules, agg, agg.black.guest, at);
    }
  }

  // ----- recoveries interleaved with everything else -----

  type CallId = nat

  datatype Recovering =
    | Looked(game: GameId, guest: GuestId, version: nat, payload: Payload)
    | Missed(game: GameId, guest: GuestId)
    | Captured(game: GameId, guest: GuestId, agg: Aggregate, at: int)
    | Served(game: GameId, guest: GuestId, version: nat, payload: Payload, hit: bool)
    | Failed

  datatype Memory = Memory(db: Db, cache: map<GameId, Entry>, calls: map<CallId, Recovering>)

  datatype Event =
    | Durable(call: Call)
    | Drop(game: GameId)
    | Begin(id: CallId, game: GameId, guest: GuestId)
    | Authorize(id: CallId)
    | Capture(id: CallId, at: int)
    | Restore(id: CallId)

  /** The cache is read; only a payload of a finished game may be served from it. */
  function Look(m: Memory, game: GameId, guest: GuestId): Recovering {
    if game in m.cache && guest in m.cache[game].payloads && m.cache[game].payloads[guest].status.Terminal()
    then Looked(game, guest, m.cache[game].gameVersion, m.cache[game].payloads[guest])
    else Missed(game, guest)
  }

  /** The durable row must agree on version and status. */
  function Authorized(db: Db, c: Recovering): Recovering
    requires c.Looked?
  {
    if c.game !in db.games || db.games[c.game].ColorOf(c.guest).None? then Failed
    else if db.games[c.game].game.version == c.version && db.games[c.game].game.status == c.payload.status
    then Served(c.game, c.guest, c.version, c.payload, true)
    else Missed(c.game, c.guest)
  }

  /** The durable game is read afresh. */
  function Read(db: Db, c: Recovering, at: int): Recovering
    requires c.Missed?
  {
    if c.game !in db.games || db.games[c.game].ColorOf(c.guest).None? then Failed
    else if ViewOf(db.games[c.game].game, at).Err? then Failed
    else if db.games[c.game].white.guest == db.games[c.game].black.guest then Failed
    else Captured(c.game, c.guest, db.games[c.game], at)
  }

  predicate MayRestore(c: Recovering) {
    && c.Captured? && c.agg.white.guest != c.agg.black.guest
    && ViewOf(c.agg.game, c.at).Ok? && c.agg.ColorOf(c.guest).Some?
  }

  function Next(rules: Rules, profiles: Profiles, m: Memory, e: Event): Memory {
    match e
    case Durable(call) => m.(db := Step(rules, m.db, call))
    case Drop(game) => m.(cache := m.cache - {game})
    case Begin(id, game, guest) => if id in m.calls then m else m.(calls := m.calls[id := Look(m, game, guest)])
    case Authorize(id) =>
      if id in m.calls && m.calls[id].Looked? then m.(calls := m.calls[id := Authorized(m.db, m.calls[id])]) else m
    case Capture(id, at) =>
      if id in m.calls && m.calls[id].Missed? then m.(calls := m.calls[id := Read(m.db, m.calls[id], at)]) else m
    case Restore(id) =>
      if id in m.calls && MayRestore(m.calls[id]) then
        var c := m.calls[id];
        var view := ViewOf(c.agg.game, c.at).value;
        m.(cache := m.cache[c.game := EntryOf(profiles, c.agg, view)],
           calls := m.calls[
             id := Served(c.game, c.guest, c.agg.game.version, Present(profiles, c.agg, view, c.guest), false)])
      else m
  }

  function RunMemory(rules: Rules, profiles: Profiles, events: seq<Event>): Memory {
    if events == [] then Memory(EmptyDb, map[], map[])
    else Next(rules, profiles, RunMemory(rules, profiles, events[..|events| - 1]), events[|events| - 1])
  }

  predicate CallOk(profiles: Profiles, db: Db, c: Recovering) {
    match c
    case Looked(game, guest, version, payload) => ShowsEnded(profiles, db, game, guest, version, payload)
    case Captured(game, _, agg, at) => CaptureOk(db, game, agg, at)
    case Served(game, guest, version, payload, hit) => hit ==> ShowsEnded(profiles, db, game, guest, version, payload)
    case _ => true
  }

  predicate CacheOk(profiles: Profiles, db: Db, cache: map<GameId, Entry>) {
    forall g {:trigger EntryOk(profiles, db, g, cache[g])} :: g in cache ==> EntryOk(profiles, db, g, cache[g])
  }

  predicate CallsOk(profiles: Profiles, db: Db, calls: map<CallId, Recovering>) {
    forall id {:trigger CallOk(profiles, db, calls[id])} :: id in calls ==> CallOk(profiles, db, calls[id])
  }

  ghost predicate MemoryOk(rules: Rules, profiles: Profiles, m: Memory) {
    DbOk(rules, m.db) && CacheOk(profiles, m.db, m.cache) && CallsOk(profiles, m.db, m.calls)
  }

  // ----- every step keeps it -----

  lemma EndedStaysShown(
    profiles: Profiles, db: Db, after: Db, game: GameId, guest: GuestId, version: nat, payload: Payload)
    requires DbGrows(db, after) && ShowsEnded(profiles, db, game, guest, version, payload)
    ensures ShowsEnded(profiles, after, game, guest, version, payload)
  {
    assert Grows(db.games[game], after.games[game]);
  }

  lemma EntrySurvives(profiles: Profiles, db: Db, after: Db, game: GameId, entry: Entry)
    requires DbGrows(db, after) && EntryOk(profiles, db, game, entry)
    ensures EntryOk(profiles, after, game, entry)
  {
    forall guest | guest in entry.payloads && entry.payloads[guest].status.Terminal()
      ensures ShowsEnded(profiles, after, game, guest, entry.gameVersion, entry.payloads[guest])
    {
      EndedStaysShown(profiles, db, after, game, guest, entry.gameVersion, entry.payloads[guest]);
    }
  }

  lemma CallSurvives(profiles: Profiles, db: Db, after: Db, c: Recovering)
    requires DbGrows(db, after) && CallOk(profiles, db, c)
    ensures CallOk(profiles, after, c)
  {
    match c
    case Looked(game, guest, version, payload) => EndedStaysShown(profiles, db, after, game, guest, version, payload);
    case Captured(game, _, agg, _) => assert Grows(db.games[game], after.games[game]);
    case Served(game, guest, version, payload, hit) =>
      if hit {
        EndedStaysShown(profiles, db, after, game, guest, version, payload);
      }
    case _ =>
  }

  lemma DurableStep(rules: Rules, profiles: Profiles, m: Memory, call: Call)
    requires rules.Faithful() && MemoryOk(rules, profiles, m)
    ensures MemoryOk(rules, profiles, Next(rules, profiles, m, Durable(call)))
  {
    StepIsSound(rules, m.db, call);
    MemorySurvives(profiles, m.db, Step(rules, m.db, call), m);
  }

  lemma MemorySurvives(profiles: Profiles, db: Db, after: Db, m: Memory)
    requires DbGrows(db, after) && CacheOk(profiles, db, m.cache) && CallsOk(profiles, db, m.calls)
    ensures CacheOk(profiles, after, m.cache) && CallsOk(profiles, after, m.calls)
  {
    forall g | g in m.cache
      ensures EntryOk(profiles, after, g, m.cache[g])
    {
      EntrySurvives(profiles, db, after, g, m.cache[g]);
    }
    forall id | id in m.calls
      ensures CallOk(profiles, after, m.calls[id])
    {
      CallSurvives(profiles, db, after, m.calls[id]);
    }
  }

  lemma CallMoves(profiles: Profiles, db: Db, calls: map<CallId, Recovering>, id: CallId, c: Recovering)
    requires CallsOk(profiles, db, calls) && CallOk(profiles, db, c)
    ensures CallsOk(profiles, db, calls[id := c])
  {
    var after := calls[id := c];
    forall other | other in after
      ensures CallOk(profiles, db, after[other])
    {
      if other != id {
        assert CallOk(profiles, db, calls[other]);
      }
    }
  }

  lemma CacheMoves(profiles: Profiles, db: Db, cache: map<GameId, Entry>, game: GameId, entry: Entry)
    requires CacheOk(profiles, db, cache) && EntryOk(profiles, db, game, entry)
    ensures CacheOk(profiles, db, cache[game := entry])
  {
    var after := cache[game := entry];
    forall g | g in after
      ensures EntryOk(profiles, db, g, after[g])
    {
      if g != game {
        assert EntryOk(profiles, db, g, cache[g]);
      }
    }
  }

  lemma LookIsOk(profiles: Profiles, m: Memory, game: GameId, guest: GuestId)
    requires CacheOk(profiles, m.db, m.cache)
    ensures CallOk(profiles, m.db, Look(m, game, guest))
  {
    if game in m.cache {
      assert EntryOk(profiles, m.db, game, m.cache[game]);
    }
  }

  /** A cached payload of a finished game always passes the durable check. */
  lemma FinishedEntriesAlwaysHit(profiles: Profiles, db: Db, c: Recovering)
    requires c.Looked? && CallOk(profiles, db, c)
    ensures Authorized(db, c) == Served(c.game, c.guest, c.version, c.payload, true)
  {
    assert Timeless(c.payload).status == c.payload.status;
  }

  lemma CallStep(rules: Rules, profiles: Profiles, m: Memory, e: Event)
    requires MemoryOk(rules, profiles, m) && (e.Begin? || e.Authorize? || e.Capture?)
    ensures MemoryOk(rules, profiles, Next(rules, profiles, m, e))
  {
    match e
    case Begin(id, game, guest) =>
      if id !in m.calls {
        LookIsOk(profiles, m, game, guest);
        CallMoves(profiles, m.db, m.calls, id, Look(m, game, guest));
      }
    case Authorize(id) =>
      if id in m.calls && m.calls[id].Looked? {
        assert CallOk(profiles, m.db, m.calls[id]);
        FinishedEntriesAlwaysHit(profiles, m.db, m.calls[id]);
        CallMoves(profiles, m.db, m.calls, id, Authorized(m.db, m.calls[id]));
      }
    case Capture(id, at) =>
      if id in m.calls && m.calls[id].Missed? {
        CallMoves(profiles, m.db, m.calls, id, Read(m.db, m.calls[id], at));
      }
  }

  lemma RestoreStep(rules: Rules, profiles: Profiles, m: Memory, id: CallId)
    requires MemoryOk(rules, profiles, m)
    ensures MemoryOk(rules, profiles, Next(rules, profiles, m, Restore(id)))
  {
    if id in m.calls && MayRestore(m.calls[id]) {
      var c := m.calls[id];
      var view := ViewOf(c.agg.game, c.at).value;
      assert CallOk(profiles, m.db, c);
      BuiltEntryIsOk(profiles, rules, m.db, c.game, c.agg, c.at);
      CacheMoves(profiles, m.db, m.cache, c.game, EntryOf(profiles, c.agg, view));
      CallMoves(profiles, m.db, m.calls, id,
                Served(c.game, c.guest, c.agg.game.version, Present(profiles, c.agg, view, c.guest), false));
    }
  }

  lemma DropStep(rules: Rules, profiles: Profiles, m: Memory, game: GameId)
    requires MemoryOk(rules, profiles, m)
    ensures MemoryOk(rules, profiles, Next(rules, profiles, m, Drop(game)))
  {
    var cache := m.cache - {game};
    forall g | g in cache
      ensures EntryOk(profiles, m.db, g, cache[g])
    {
      assert EntryOk(profiles, m.db, g, m.cache[g]);
    }
  }

  lemma {:induction false} MemoryIsAlwaysOk(rules: Rules, profiles: Profiles, events: seq<Event>)
    requires rules.Faithful()
    ensures MemoryOk(rules, profiles, RunMemory(rules, profiles, events))
  {
    if events == [] {
      EmptyDbOk(rules);
    } else {
      var front, e := events[..|events| - 1], events[|events| - 1];
      MemoryIsAlwaysOk(rules, profiles, front);
      var m := RunMemory(rules, profiles, front);
      match e
      case Durable(call) => DurableStep(rules, profiles, m, call);
      case Drop(game) => DropStep(rules, profiles, m, game);
      case Restore(id) => RestoreStep(rules, profiles, m, id);
      case _ => CallStep(rules, profiles, m, e);
    }
  }

  /** In every run, whatever captured snapshots are still on their way to the cache: a snapshot
      served from the cache is, then and ever after, what would be built afresh for that
      guest at any instant, but for the server time. */
  lemma ServedHitsAreFresh(rules: Rules, profiles: Profiles, events: seq<Event>, id: CallId, at: int)
    requires rules.Faithful()
    requires var m := RunMemory(rules, profiles, events); id in m.calls && m.calls[id].Served? && m.calls[id].hit
    ensures var m := RunMemory(rules, profiles, events);
            var c := m.calls[id];
            && HasEnded(m.db, c.game)
            && var agg := m.db.games[c.game];
            && agg.ColorOf(c.guest).Some? && agg.white.guest != agg.black.guest && ViewOf(agg.game, at).Ok?
            && c.version == agg.game.version
            && Timeless(c.payload) == Timeless(Present(profiles, agg, ViewOf(agg.game, at).value, c.guest))
  {
    MemoryIsAlwaysOk(rules, profiles, events);
    var m := RunMemory(rules, profiles, events);
    var c := m.calls[id];
    assert CallOk(profiles, m.db, c);
    assert GameOk(rules, m.db, c.game);
    FinishedViewIsTimeless(profiles, rules, m.db.games[c.game], c.guest, 0, at);
  }

  // ----- one recovery from start to end -----

  datatype Recovered = Snapshot(version: nat, payload: Payload) | NotFound | NotAMember | Corrupt

  predicate EntriesOk(profiles: Profiles, db: Db, snapshots: map<GameId, Expiring<Entry>>) {
    forall g {:trigger EntryOk(profiles, db, g, snapshots[g].value)} ::
      g in snapshots ==> EntryOk(profiles, db, g, snapshots[g].value)
  }

  lemma EntrySet(
    profiles: Profiles, db: Db, snapshots: map<GameId, Expiring<Entry>>, game: GameId, entry: Expiring<Entry>)
    requires EntriesOk(profiles, db, snapshots) && EntryOk(profiles, db, game, entry.value)
    ensures EntriesOk(profiles, db, snapshots[game := entry])
  {
    var after := snapshots[game := entry];
    forall g | g in after
      ensures EntryOk(profiles, db, g, after[g].value)
    {
      if g != game {
        assert EntryOk(profiles, db, g, snapshots[g].value);
      }
    }
  }

  /** The answer is the game's own: up to the time of day, and to the letter while it is active. */
  predicate Answers(profiles: Profiles, db: Db, game: GameId, guest: GuestId, observedAt: int, result: Recovered) {
    match result
    case NotFound => game !in db.games
    case NotAMember => game in db.games && db.games[game].ColorOf(guest).None?
    case Corrupt => false
    case Snapshot(version, payload) =>
      && game in db.games
      && var agg := db.games[game];
      && agg.ColorOf(guest).Some? && agg.white.guest != agg.black.guest && ViewOf(agg.game, observedAt).Ok?
      && version == agg.game.version
      && var rebuilt := Present(profiles, agg, ViewOf(agg.game, observedAt).value, guest);
      && Timeless(payload) == Timeless(rebuilt)
      && (!agg.game.status.Terminal() ==> payload == rebuilt)
  }

  /** Recovers a snapshot: from the cache if it shows a finished game the durable row confirms,
      else from the store, writing the cache anew. */
  method RecoverSnapshot(
    ghost rules: Rules, db: Db, cache: Cache, game: GameId, guest: GuestId, observedAt: int, now: int)
    returns (result: Recovered)
    requires DbOk(rules, db) && EntriesOk(cache.profiles, db, cache.snapshots)
    modifies cache
    ensures EntriesOk(cache.profiles, db, cache.snapshots)
    ensures Answers(cache.profiles, db, game, guest, observedAt, result)
  {
    var cached := cache.ReadSnapshot(game, guest, now);
    if cached.Some? && cached.value.1.status.Terminal() {
      if game !in db.games {
        return NotFound;
      }
      var row := db.games[game];
      if row.ColorOf(guest).None? {
        return NotAMember;
      }
      if row.game.version == cached.value.0 && row.game.status == cached.value.1.status {
        assert EntryOk(cache.profiles, db, game, cache.snapshots[game].value);
        HitAnswers(cache.profiles, rules, db, game, guest, observedAt, cached.value.0, cached.value.1);
        return Snapshot(cached.value.0, cached.value.1);
      }
    }
    result := BuildSnapshot(rules, db, cache, game, guest, observedAt, now);
  }

  lemma HitAnswers(
    profiles: Profiles, rules: Rules, db: Db, game: GameId, guest: GuestId, observedAt: int,
    version: nat, payload: Payload)
    requires GamesOk(rules, db) && ShowsEnded(profiles, db, game, guest, version, payload)
    ensures Answers(profiles, db, game, guest, observedAt, Snapshot(version, payload))
  {
    assert GameOk(rules, db, game);
    FinishedViewIsTimeless(profiles, rules, db.games[game], guest, 0, observedAt);
  }

  /** The durable game is read, presented, and cached for both players. */
  method BuildSnapshot(
    ghost rules: Rules, db: Db, cache: Cache, game: GameId, guest: GuestId, observedAt: int, now: int)
    returns (result: Recovered)
    requires GamesOk(rules, db) && EntriesOk(cache.profiles, db, cache.snapshots)
    modifies cache
    ensures EntriesOk(cache.profiles, db, cache.snapshots)
    ensures Answers(cache.profiles, db, game, guest, observedAt, result)
  {
    if game !in db.games {
      return NotFound;
    }
    var agg := db.games[game];
    if agg.ColorOf(guest).None? {
      return NotAMember;
    }
    var view := ViewOf(agg.game, observedAt);
    PlayableView(rules, db, game, observedAt);
    if view.Err? {
      assert false;
    }
    result := Snapshot(agg.game.version, Present(cache.profiles, agg, view.value, guest));
    BuiltEntryKeeps(rules, db, cache, game, observedAt, now);
    cache.RestoreSnapshot(agg, view.value, now);
  }

  lemma BuiltEntryKeeps(rules: Rules, db: Db, cache: Cache, game: GameId, observedAt: int, now: int)
    requires GamesOk(rules, db) && EntriesOk(cache.profiles, db, cache.snapshots) && game in db.games
    requires db.games[game].white.guest != db.games[game].black.guest && ViewOf(db.games[game].game, observedAt).Ok?
    ensures var entry := EntryOf(cache.profiles, db.games[game], ViewOf(db.games[game].game, observedAt).value);
            EntriesOk(cache.profiles, db, cache.snapshots[game := Expiring(entry, now + cache.ttls.snapshotMs)])
  {
    var entry := EntryOf(cache.profiles, db.games[game], ViewOf(db.games[game].game, observedAt).value);
    BuiltEntryIsOk(cache.profiles, rules, db, game, db.games[game], observedAt);
    EntrySet(cache.profiles, db, cache.snapshots, game, Expiring(entry, now + cache.ttls.snapshotMs));
  }

  lemma PlayableView(rules: Rules, db: Db, game: GameId, at: int)
    requires GamesOk(rules, db) && game in db.games
    ensures db.games[game].game.id == game
    ensures db.games[game].white.guest != db.games[game].black.guest && ViewOf(db.games[game].game, at).Ok?
  {
    assert GameOk(rules, db, game);
    ViewNeverFails(rules, db.games[game], at);
  }
}
