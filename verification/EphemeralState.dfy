/** The Redis keys that mirror the durable games: active-game pointers, user states, cached
    snapshots and reconnect graces; how they are restored, cleared and inspected. */
module EphemeralState {
  import opened Domain
  import opened GameClock
  import opened GameRows
  import opened Snapshots

  datatype UserState = Idle | InGame | Queued

  datatype Expiring<T> = Expiring(value: T, expiresAt: int)

  /** A cached snapshot: the version it shows and one payload per player. */
  datatype Entry = Entry(gameVersion: nat, payloads: map<GuestId, Payload>)

  datatype Redis = Redis(
    active: map<GuestId, GameId>,
    states: map<GuestId, Expiring<UserState>>,
    snapshots: map<GameId, Expiring<Entry>>,
    graces: map<(GameId, GuestId), Expiring<int>>,
    queueGuards: set<GuestId>)

  datatype Ttls = Ttls(snapshotMs: int, stateMs: int)
  {
    predicate Valid() { 0 < snapshotMs && 0 < stateMs }
  }

  /** GET: None when the key is missing or has expired. */
  function Get<K, V>(keys: map<K, Expiring<V>>, key: K, now: int): Option<V> {
    if key in keys && now < keys[key].expiresAt then Some(keys[key].value) else None
  }

  function ActiveGame(r: Redis, guest: GuestId): Option<GameId> {
    if guest in r.active then Some(r.active[guest]) else None
  }

  // ----- what each command does -----

  /** Compare-and-clear of one guest's pointer. */
  function ClearActive(r: Redis, ttls: Ttls, guest: GuestId, game: GameId, now: int): Redis {
    var idle := r.states[guest := Expiring(Idle, now + ttls.stateMs)];
    if ActiveGame(r, guest) == Some(game) then r.(active := r.active - {guest}, states := idle)
    else if ActiveGame(r, guest).None? && Get(r.states, guest, now) == Some(InGame) then r.(states := idle)
    else r
  }

  function RestoreActive(r: Redis, ttls: Ttls, guest: GuestId, game: GameId, now: int): Redis {
    r.(active := r.active[guest := game], states := r.states[guest := Expiring(InGame, now + ttls.stateMs)])
  }

  predicate GraceAhead(player: PlayerRow, now: int) {
    player.graceEndsAt.Some? && player.graceEndsAt.value > now
  }

  function RestoreGrace(r: Redis, game: GameId, player: PlayerRow, now: int): Redis {
    if GraceAhead(player, now)
    then r.(graces := r.graces[(game, player.guest) := Expiring(player.graceEndsAt.value, player.graceEndsAt.value)])
    else r.(graces := r.graces - {(game, player.guest)})
  }

  function EntryOf(profiles: Profiles, agg: Aggregate, view: ClockView): Entry
    requires agg.white.guest != agg.black.guest
  {
    Entry(agg.game.version, map[
      agg.white.guest := Present(profiles, agg, view, agg.white.guest),
      agg.black.guest := Present(profiles, agg, view, agg.black.guest)])
  }

  function Cached(r: Redis, ttls: Ttls, profiles: Profiles, agg: Aggregate, view: ClockView, now: int): Redis
    requires agg.white.guest != agg.black.guest
  {
    r.(snapshots := r.snapshots[agg.game.id := Expiring(EntryOf(profiles, agg, view), now + ttls.snapshotMs)])
  }

  function RestoreBoth(r: Redis, ttls: Ttls, agg: Aggregate, now: int): Redis {
    RestoreActive(RestoreActive(r, ttls, agg.white.guest, agg.game.id, now), ttls, agg.black.guest, agg.game.id, now)
  }

  function GraceBoth(r: Redis, agg: Aggregate, now: int): Redis {
    RestoreGrace(RestoreGrace(r, agg.game.id, agg.white, now), agg.game.id, agg.black, now)
  }

  function ClearBoth(r: Redis, ttls: Ttls, game: GameId, guests: (GuestId, GuestId), now: int): Redis {
    ClearActive(ClearActive(r, ttls, guests.0, game, now), ttls, guests.1, game, now)
  }

  /** The whole of restoreSnapshot: the cached entry, the players' pointers and states, the graces. */
  function Restored(r: Redis, ttls: Ttls, profiles: Profiles, agg: Aggregate, view: ClockView, now: int): Redis
    requires agg.white.guest != agg.black.guest
  {
    var cached := Cached(r, ttls, profiles, agg, view, now);
    if agg.game.status.Terminal()
    then ClearBoth(GraceBoth(cached, agg, now), ttls, agg.game.id, (agg.white.guest, agg.black.guest), now)
    else GraceBoth(RestoreBoth(cached, ttls, agg, now), agg, now)
  }

  /** After a game has ended: its snapshot and graces go, its players' queue guards, and their
      pointers if they are its own. */
  function AfterTerminal(r: Redis, ttls: Ttls, game: GameId, guests: (GuestId, GuestId), now: int): Redis {
    var dropped := r.(
      snapshots := r.snapshots - {game},
      graces := r.graces - {(game, guests.0), (game, guests.1)},
      queueGuards := r.queueGuards - {guests.0, guests.1});
    ClearBoth(dropped, ttls, game, guests, now)
  }

  /** One compare-and-clear: the guest's own pointer goes if it names the game, a guest in
      another game is left alone, and so is every other guest. */
  lemma ClearedPointer(r: Redis, ttls: Ttls, guest: GuestId, game: GameId, other: GuestId, now: int)
    ensures var after := ClearActive(r, ttls, guest, game, now);
            && after == r.(active := after.active, states := after.states)
            && ActiveGame(after, guest) == (if ActiveGame(r, guest) == Some(game) then None else ActiveGame(r, guest))
            && (ActiveGame(r, guest).Some? && ActiveGame(r, guest) != Some(game) ==> after == r)
            && (ActiveGame(after, guest).None? ==> Get(after.states, guest, now) != Some(InGame))
            && (other != guest ==> SameAt(r.active, after.active, other) && SameAt(r.states, after.states, other))
  {
  }

  /** Clean-up after an ending is complete and no more: nothing of the game is left, and a
      player who is already in another game keeps pointer and state. */
  lemma EndedGameLeavesNoKeys(r: Redis, ttls: Ttls, game: GameId, guests: (GuestId, GuestId), guest: GuestId, now: int)
    requires guests.0 != guests.1 && (guest == guests.0 || guest == guests.1)
    ensures var after := AfterTerminal(r, ttls, game, guests, now);
            && game !in after.snapshots && (game, guest) !in after.graces && guest !in after.queueGuards
            && ActiveGame(after, guest) == (if ActiveGame(r, guest) == Some(game) then None else ActiveGame(r, guest))
            && (ActiveGame(r, guest).Some? && ActiveGame(r, guest) != Some(game) ==>
                  SameAt(r.states, after.states, guest))
            && (ActiveGame(after, guest).None? ==> Get(after.states, guest, now) != Some(InGame))
  {
    var dropped := r.(
      snapshots := r.snapshots - {game},
      graces := r.graces - {(game, guests.0), (game, guests.1)},
      queueGuards := r.queueGuards - {guests.0, guests.1});
    ClearedPointer(dropped, ttls, guests.0, game, guests.1, now);
    ClearedPointer(ClearActive(dropped, ttls, guests.0, game, now), ttls, guests.1, game, guests.0, now);
  }

  // ----- inspection -----

  datatype Drift = Drift(
    missingActive: seq<GuestId>,
    missingState: seq<GuestId>,
    graceDrift: seq<GuestId>,
    snapshotMissing: bool)
  {
    function Count(): nat {
      |missingActive| + |missingState| + |graceDrift| + (if snapshotMissing then 1 else 0)
    }
  }

  predicate ActiveMissing(r: Redis, game: GameId, player: PlayerRow) { ActiveGame(r, player.guest) != Some(game) }

  predicate StateMissing(r: Redis, player: PlayerRow, now: int) { Get(r.states, player.guest, now) != Some(InGame) }

  predicate GraceDrifts(r: Redis, game: GameId, player: PlayerRow, now: int) {
    GraceAhead(player, now) != Get(r.graces, (game, player.guest), now).Some?
  }

  function Chosen(white: bool, black: bool, agg: Aggregate): seq<GuestId> {
    (if white then [agg.white.guest] else []) + (if black then [agg.black.guest] else [])
  }

  function DriftOf(r: Redis, agg: Aggregate, now: int): Drift {
    var game := agg.game.id;
    Drift(
      Chosen(ActiveMissing(r, game, agg.white), ActiveMissing(r, game, agg.black), agg),
      Chosen(StateMissing(r, agg.white, now), StateMissing(r, agg.black, now), agg),
      Chosen(GraceDrifts(r, game, agg.white, now), GraceDrifts(r, game, agg.black, now), agg),
      Get(r.snapshots, game, now).None?)
  }

  /** Restoring an active game leaves it without any drift at that instant. */
  lemma RestoredHasNoDrift(r: Redis, ttls: Ttls, profiles: Profiles, agg: Aggregate, view: ClockView, now: int)
    requires ttls.Valid() && agg.white.guest != agg.black.guest && !agg.game.status.Terminal()
    ensures DriftOf(Restored(r, ttls, profiles, agg, view, now), agg, now).Count() == 0
  {
  }

  predicate SameAt<K, V(==)>(a: map<K, V>, b: map<K, V>, key: K) {
    (key in a <==> key in b) && (key in a ==> a[key] == b[key])
  }

  /** Two states hold the same keys about one game and its players. */
  predicate Agree(a: Redis, b: Redis, agg: Aggregate) {
    && SameAt(a.active, b.active, agg.white.guest) && SameAt(a.active, b.active, agg.black.guest)
    && SameAt(a.states, b.states, agg.white.guest) && SameAt(a.states, b.states, agg.black.guest)
    && SameAt(a.snapshots, b.snapshots, agg.game.id)
    && SameAt(a.graces, b.graces, (agg.game.id, agg.white.guest))
    && SameAt(a.graces, b.graces, (agg.game.id, agg.black.guest))
    && a.queueGuards * {agg.white.guest, agg.black.guest} == b.queueGuards * {agg.white.guest, agg.black.guest}
  }

  lemma AgreeingStatesDriftAlike(a: Redis, b: Redis, agg: Aggregate, now: int)
    requires Agree(a, b, agg)
    ensures DriftOf(a, agg, now) == DriftOf(b, agg, now)
  {
  }

  predicate Plays(agg: Aggregate, guest: GuestId) { guest == agg.white.guest || guest == agg.black.guest }

  lemma PointersLeaveOthers(r: Redis, ttls: Ttls, guest: GuestId, game: GameId, other: Aggregate, now: int)
    requires !Plays(other, guest)
    ensures Agree(r, RestoreActive(r, ttls, guest, game, now), other)
    ensures Agree(r, ClearActive(r, ttls, guest, game, now), other)
  {
  }

  lemma GracesLeaveOthers(r: Redis, game: GameId, player: PlayerRow, other: Aggregate, now: int)
    requires game != other.game.id
    ensures Agree(r, RestoreGrace(r, game, player, now), other)
  {
  }

  lemma AgreeIsTransitive(a: Redis, b: Redis, c: Redis, agg: Aggregate)
    requires Agree(a, b, agg) && Agree(b, c, agg)
    ensures Agree(a, c, agg)
  {
  }

  lemma RestoreBothLeavesOthers(r: Redis, ttls: Ttls, agg: Aggregate, other: Aggregate, now: int)
    requires !Plays(other, agg.white.guest) && !Plays(other, agg.black.guest)
    ensures Agree(r, RestoreBoth(r, ttls, agg, now), other)
  {
    var half := RestoreActive(r, ttls, agg.white.guest, agg.game.id, now);
    PointersLeaveOthers(r, ttls, agg.white.guest, agg.game.id, other, now);
    PointersLeaveOthers(half, ttls, agg.black.guest, agg.game.id, other, now);
    AgreeIsTransitive(r, half, RestoreBoth(r, ttls, agg, now), other);
  }

  lemma GraceBothLeavesOthers(r: Redis, agg: Aggregate, other: Aggregate, now: int)
    requires agg.game.id != other.game.id
    ensures Agree(r, GraceBoth(r, agg, now), other)
  {
    var half := RestoreGrace(r, agg.game.id, agg.white, now);
    GracesLeaveOthers(r, agg.game.id, agg.white, other, now);
    GracesLeaveOthers(half, agg.game.id, agg.black, other, now);
    AgreeIsTransitive(r, half, GraceBoth(r, agg, now), other);
  }

  /** Keys of one game are not touched by restoring another active game with other players. */
  lemma RestoredLeavesOthers(
    r: Redis, ttls: Ttls, profiles: Profiles, agg: Aggregate, view: ClockView, other: Aggregate, now: int)
    requires agg.white.guest != agg.black.guest && agg.game.id != other.game.id && !agg.game.status.Terminal()
    requires !Plays(other, agg.white.guest) && !Plays(other, agg.black.guest)
    ensures Agree(r, Restored(r, ttls, profiles, agg, view, now), other)
  {
    var cached := Cached(r, ttls, profiles, agg, view, now);
    var pointed := RestoreBoth(cached, ttls, agg, now);
    assert Agree(r, cached, other);
    RestoreBothLeavesOthers(cached, ttls, agg, other, now);
    GraceBothLeavesOthers(pointed, agg, other, now);
    AgreeIsTransitive(r, cached, pointed, other);
    AgreeIsTransitive(r, pointed, GraceBoth(pointed, agg, now), other);
  }

  // ----- the cache object -----

  class Cache {
    const ttls: Ttls
    const profiles: Profiles
    var active: map<GuestId, GameId>
    var states: map<GuestId, Expiring<UserState>>
    var snapshots: map<GameId, Expiring<Entry>>
    var graces: map<(GameId, GuestId), Expiring<int>>
    var queueGuards: set<GuestId>

    ghost function View(): Redis
      reads this
    {
      Redis(active, states, snapshots, graces, queueGuards)
    }

    constructor (ttls: Ttls, profiles: Profiles)
      ensures this.ttls == ttls && this.profiles == profiles && View() == Redis(map[], map[], map[], map[], {})
    {
      this.ttls := ttls;
      this.profiles := profiles;
      active, states, snapshots, graces, queueGuards := map[], map[], map[], map[], {};
    }

    method ReadActiveGame(guest: GuestId) returns (game: Option<GameId>)
      ensures game == ActiveGame(View(), guest)
    {
      game := if guest in active then Some(active[guest]) else None;
    }

    method ClearActiveGame(guest: GuestId, expected: GameId, now: int) returns (cleared: bool)
      modifies this`active, this`states
      ensures View() == ClearActive(old(View()), ttls, guest, expected, now)
      ensures cleared <==>
                || ActiveGame(old(View()), guest) == Some(expected)
                || (ActiveGame(old(View()), guest).None? && Get(old(states), guest, now) == Some(InGame))
    {
      if guest in active && active[guest] == expected {
        active := active - {guest};
        states := states[guest := Expiring(Idle, now + ttls.stateMs)];
        return true;
      }
      if guest !in active && Get(states, guest, now) == Some(InGame) {
        states := states[guest := Expiring(Idle, now + ttls.stateMs)];
        return true;
      }
      return false;
    }

    method RestoreActiveGame(game: GameId, guest: GuestId, now: int)
      modifies this`active, this`states
      ensures View() == RestoreActive(old(View()), ttls, guest, game, now)
    {
      active := active[guest := game];
      states := states[guest := Expiring(InGame, now + ttls.stateMs)];
    }

    /** The cached version and payload for one player, None on a miss. */
    method ReadSnapshot(game: GameId, guest: GuestId, now: int) returns (cached: Option<(nat, Payload)>)
      ensures cached == match Get(snapshots, game, now)
                        case None => None
                        case Some(entry) =>
                          if guest in entry.payloads then Some((entry.gameVersion, entry.payloads[guest])) else None
    {
      var value := Get(snapshots, game, now);
      if value.None? || guest !in value.value.payloads {
        return None;
      }
      return Some((value.value.gameVersion, value.value.payloads[guest]));
    }

    method SetGrace(game: GameId, player: PlayerRow, now: int)
      modifies this`graces
      ensures View() == RestoreGrace(old(View()), game, player, now)
    {
      if player.graceEndsAt.Some? && player.graceEndsAt.value > now {
        var ttl := if player.graceEndsAt.value - now > 1 then player.graceEndsAt.value - now else 1;
        graces := graces[(game, player.guest) := Expiring(player.graceEndsAt.value, now + ttl)];
      } else {
        graces := graces - {(game, player.guest)};
      }
    }

    method RestoreSnapshot(agg: Aggregate, view: ClockView, now: int)
      requires agg.white.guest != agg.black.guest
      modifies this
      ensures View() == Restored(old(View()), ttls, profiles, agg, view, now)
      ensures snapshots == old(snapshots)[agg.game.id := Expiring(EntryOf(profiles, agg, view), now + ttls.snapshotMs)]
    {
      var game := agg.game.id;
      snapshots := snapshots[game := Expiring(EntryOf(profiles, agg, view), now + ttls.snapshotMs)];
      assert View() == Cached(old(View()), ttls, profiles, agg, view, now);
      if !agg.game.status.Terminal() {
        RestoreActiveGame(game, agg.white.guest, now);
        RestoreActiveGame(game, agg.black.guest, now);
      }
      SetGrace(game, agg.white, now);
      SetGrace(game, agg.black, now);
      if agg.game.status.Terminal() {
        var _ := ClearActiveGame(agg.white.guest, game, now);
        var _ := ClearActiveGame(agg.black.guest, game, now);
      }
    }

    method AfterGameEnded(game: GameId, guests: (GuestId, GuestId), now: int)
      modifies this
      ensures View() == AfterTerminal(old(View()), ttls, game, guests, now)
    {
      snapshots := snapshots - {game};
      graces := graces - {(game, guests.0), (game, guests.1)};
      queueGuards := queueGuards - {guests.0, guests.1};
      var _ := ClearActiveGame(guests.0, game, now);
      var _ := ClearActiveGame(guests.1, game, now);
    }

    method DropSnapshot(game: GameId)
      modifies this`snapshots
      ensures snapshots == old(snapshots) - {game}
    {
      snapshots := snapshots - {game};
    }

    method InspectAllocation(agg: Aggregate, now: int) returns (drift: Drift)
      ensures drift == DriftOf(View(), agg, now)
    {
      var game := agg.game.id;
      var players := [agg.white, agg.black];
      var missingActive: seq<GuestId> := [];
      var missingState: seq<GuestId> := [];
      var graceDrift: seq<GuestId> := [];
      for i := 0 to 2
        invariant missingActive ==
                  Chosen(i >= 1 && ActiveMissing(View(), game, agg.white),
                         i >= 2 && ActiveMissing(View(), game, agg.black), agg)
        invariant missingState ==
                  Chosen(i >= 1 && StateMissing(View(), agg.white, now),
                         i >= 2 && StateMissing(View(), agg.black, now), agg)
        invariant graceDrift ==
                  Chosen(i >= 1 && GraceDrifts(View(), game, agg.white, now),
                         i >= 2 && GraceDrifts(View(), game, agg.black, now), agg)
      {
        var player := players[i];
        if !(player.guest in active && active[player.guest] == game) {
          missingActive := missingActive + [player.guest];
        }
        if Get(states, player.guest, now) != Some(InGame) {
          missingState := missingState + [player.guest];
        }
        var expected := player.graceEndsAt.Some? && player.graceEndsAt.value > now;
        var present := Get(graces, (game, player.guest), now).Some?;
        if expected != present {
          graceDrift := graceDrift + [player.guest];
        }
      }
      drift := Drift(missingActive, missingState, graceDrift, Get(snapshots, game, now).None?);
    }
  }
}
