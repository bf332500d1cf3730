/** Multi-socket presence: a sorted set of sockets per guest, scored by expiry, pruned only
    when it is touched and guarded by a time-to-live on the whole key. */
module Presence {
  import opened Domain

  type SocketId = nat

  /** One guest's key: each socket with the instant it expires, and the key's own expiry. */
  datatype Key = Key(scores: map<SocketId, int>, expiresAt: int)

  /** The members a command finds: an expired or missing key reads as empty. */
  function Members(keys: map<GuestId, Key>, guest: GuestId, now: int): map<SocketId, int> {
    if guest in keys && now < keys[guest].expiresAt then keys[guest].scores else map[]
  }

  /** ZREMRANGEBYSCORE -inf now. */
  function Pruned(scores: map<SocketId, int>, now: int): map<SocketId, int> {
    map s | s in scores && scores[s] > now :: scores[s]
  }

  function Refreshed(keys: map<GuestId, Key>, guest: GuestId, socket: SocketId, now: int, ttl: int, keyTtl: int):
    map<GuestId, Key>
  {
    keys[guest := Key(Pruned(Members(keys, guest, now), now)[socket := now + ttl], now + keyTtl)]
  }

  /** A pruned key keeps its expiry, and a key left empty is gone. */
  function Rewritten(keys: map<GuestId, Key>, guest: GuestId, scores: map<SocketId, int>): map<GuestId, Key> {
    if scores == map[] || guest !in keys then keys - {guest} else keys[guest := Key(scores, keys[guest].expiresAt)]
  }

  function Removed(keys: map<GuestId, Key>, guest: GuestId, socket: SocketId, now: int): map<GuestId, Key> {
    Rewritten(keys, guest, Pruned(Members(keys, guest, now), now) - {socket})
  }

  function Counted(keys: map<GuestId, Key>, guest: GuestId, now: int): map<GuestId, Key> {
    Rewritten(keys, guest, Pruned(Members(keys, guest, now), now))
  }

  class Service {
    const presenceTtlMs: int
    const keyTtlMs: int
    const queueGuardTtlMs: int
    var keys: map<GuestId, Key>

    // The queue guards this service extends: when each expires.
    var guards: map<GuestId, int>

    constructor (presenceTtlMs: int, pingTimeoutMs: int, queueGuardTtlMs: int)
      ensures keys == map[] && guards == map[]
      ensures this.presenceTtlMs == presenceTtlMs && keyTtlMs == presenceTtlMs + pingTimeoutMs
    {
      this.presenceTtlMs := presenceTtlMs;
      this.keyTtlMs := presenceTtlMs + pingTimeoutMs;
      this.queueGuardTtlMs := queueGuardTtlMs;
      keys, guards := map[], map[];
    }

    method Refresh(guest: GuestId, socket: SocketId, now: int) returns (count: nat)
      modifies this
      ensures keys == Refreshed(old(keys), guest, socket, now, presenceTtlMs, keyTtlMs)
      ensures count == |keys[guest].scores|
      ensures guards == if guest in old(guards) && now < old(guards)[guest]
                        then old(guards)[guest := now + queueGuardTtlMs] else old(guards)
    {
      var scores := Pruned(Members(keys, guest, now), now);
      scores := scores[socket := now + presenceTtlMs];
      keys := keys[guest := Key(scores, now + keyTtlMs)];
      if guest in guards && now < guards[guest] {
        guards := guards[guest := now + queueGuardTtlMs];
      }
      return |scores|;
    }

    method Remove(guest: GuestId, socket: SocketId, now: int) returns (count: nat)
      modifies this`keys
      ensures keys == Removed(old(keys), guest, socket, now)
      ensures count == |Pruned(Members(old(keys), guest, now), now) - {socket}|
    {
      var scores := Pruned(Members(keys, guest, now), now);
      scores := scores - {socket};
      count := |scores|;
      if count == 0 || guest !in keys {
        keys := keys - {guest};
      } else {
        keys := keys[guest := Key(scores, keys[guest].expiresAt)];
      }
    }

    method Count(guest: GuestId, now: int) returns (count: nat)
      modifies this`keys
      ensures keys == Counted(old(keys), guest, now)
      ensures count == |Pruned(Members(old(keys), guest, now), now)|
    {
      var scores := Pruned(Members(keys, guest, now), now);
      count := |scores|;
      if count == 0 || guest !in keys {
        keys := keys - {guest};
      } else {
        keys := keys[guest := Key(scores, keys[guest].expiresAt)];
      }
    }

    method IsPresent(guest: GuestId, now: int) returns (present: bool)
      modifies this`keys
      ensures keys == Counted(old(keys), guest, now)
      ensures present <==> Pruned(Members(old(keys), guest, now), now) != map[]
    {
      var count := Count(guest, now);
      present := count > 0;
    }
  }

  // ----- runs, and the simple specification -----

  datatype Event =
    | RefreshEvent(guest: GuestId, socket: SocketId, at: int)
    | RemoveEvent(guest: GuestId, socket: SocketId, at: int)
    | CountEvent(guest: GuestId, at: int)

  function Step(keys: map<GuestId, Key>, e: Event, ttl: int, keyTtl: int): map<GuestId, Key> {
    match e
    case RefreshEvent(guest, socket, at) => Refreshed(keys, guest, socket, at, ttl, keyTtl)
    case RemoveEvent(guest, socket, at) => Removed(keys, guest, socket, at)
    case CountEvent(guest, at) => Counted(keys, guest, at)
  }

  function Run(events: seq<Event>, ttl: int, keyTtl: int): map<GuestId, Key> {
    if events == [] then map[]
    else Step(Run(events[..|events| - 1], ttl, keyTtl), events[|events| - 1], ttl, keyTtl)
  }

  predicate Ordered(events: seq<Event>) {
    forall i, j :: 0 <= i < j < |events| ==> events[i].at <= events[j].at
  }

  /** What one command makes of when a guest's sockets were last refreshed. */
  function LastAfter(last: map<SocketId, int>, e: Event, guest: GuestId): map<SocketId, int> {
    match e
    case RefreshEvent(g, socket, at) => if g == guest then last[socket := at] else last
    case RemoveEvent(g, socket, _) => if g == guest then last - {socket} else last
    case CountEvent(_, _) => last
  }

  /** When each of a guest's sockets was last refreshed, forgetting the ones removed since. */
  function LastRefresh(events: seq<Event>, guest: GuestId): map<SocketId, int> {
    if events == [] then map[]
    else LastAfter(LastRefresh(events[..|events| - 1], guest), events[|events| - 1], guest)
  }

  /** The sockets refreshed less than the time-to-live ago and not removed since. */
  function Live(events: seq<Event>, guest: GuestId, ttl: int, now: int): set<SocketId> {
    set s | s in LastRefresh(events, guest) && now < LastRefresh(events, guest)[s] + ttl
  }

  /** A key holds exactly its guest's live sockets, each with its expiry, and outlives them all. */
  predicate Tracks(keys: map<GuestId, Key>, guest: GuestId, last: map<SocketId, int>, ttl: int, now: int) {
    && (forall s :: s in last && now < last[s] + ttl ==>
          guest in keys && s in keys[guest].scores && keys[guest].scores[s] == last[s] + ttl)
    && (guest in keys ==>
          forall s :: s in keys[guest].scores && now < keys[guest].scores[s] ==>
            s in last && keys[guest].scores[s] == last[s] + ttl)
    && (guest in keys ==> forall s :: s in keys[guest].scores ==> keys[guest].scores[s] <= keys[guest].expiresAt)
  }

  lemma TracksLater(keys: map<GuestId, Key>, guest: GuestId, last: map<SocketId, int>, ttl: int, now: int, later: int)
    requires Tracks(keys, guest, last, ttl, now) && now <= later
    ensures Tracks(keys, guest, last, ttl, later)
  {
  }

  /** Whatever a command finds after pruning is exactly what is live: key expiry evicts no one. */
  lemma PrunedIsLive(keys: map<GuestId, Key>, guest: GuestId, last: map<SocketId, int>, ttl: int, now: int)
    requires Tracks(keys, guest, last, ttl, now)
    ensures Pruned(Members(keys, guest, now), now) == map s | s in last && now < last[s] + ttl :: last[s] + ttl
  {
    var found := Pruned(Members(keys, guest, now), now);
    var wanted := map s | s in last && now < last[s] + ttl :: last[s] + ttl;
    forall s
      ensures s in found <==> s in wanted
      ensures s in found ==> found[s] == wanted[s]
    {
    }
    assert found.Keys == wanted.Keys;
  }

  /** Writing back the live sockets, some added or removed, keeps track of them. */
  lemma RewriteTracks(
    keys: map<GuestId, Key>, guest: GuestId, scores: map<SocketId, int>, last: map<SocketId, int>, ttl: int, now: int)
    requires guest in keys ==> forall s :: s in scores ==> scores[s] <= keys[guest].expiresAt
    requires guest !in keys ==> scores == map[]
    requires scores == map s | s in last && now < last[s] + ttl :: last[s] + ttl
    ensures Tracks(Rewritten(keys, guest, scores), guest, last, ttl, now)
  {
    forall s | s in last && now < last[s] + ttl
      ensures s in scores && scores != map[]
    {
      assert s in scores.Keys;
    }
  }

  lemma RefreshTracks(
    keys: map<GuestId, Key>, guest: GuestId, socket: SocketId, last: map<SocketId, int>, ttl: int, keyTtl: int, at: int)
    requires 0 < ttl <= keyTtl && Tracks(keys, guest, last, ttl, at)
    requires forall s :: s in last ==> last[s] <= at
    ensures Tracks(Refreshed(keys, guest, socket, at, ttl, keyTtl), guest, last[socket := at], ttl, at)
  {
    PrunedIsLive(keys, guest, last, ttl, at);
  }

  lemma RemoveTracks(
    keys: map<GuestId, Key>, guest: GuestId, socket: SocketId, last: map<SocketId, int>, ttl: int, at: int)
    requires Tracks(keys, guest, last, ttl, at)
    ensures Tracks(Removed(keys, guest, socket, at), guest, last - {socket}, ttl, at)
  {
    var found, after := Pruned(Members(keys, guest, at), at), last - {socket};
    PrunedIsLive(keys, guest, last, ttl, at);
    assert found - {socket} == map s | s in after && at < after[s] + ttl :: after[s] + ttl;
    RewriteTracks(keys, guest, found - {socket}, after, ttl, at);
  }

  lemma CountTracks(keys: map<GuestId, Key>, guest: GuestId, last: map<SocketId, int>, ttl: int, at: int)
    requires Tracks(keys, guest, last, ttl, at)
    ensures Tracks(Counted(keys, guest, at), guest, last, ttl, at)
  {
    PrunedIsLive(keys, guest, last, ttl, at);
    RewriteTracks(keys, guest, Pruned(Members(keys, guest, at), at), last, ttl, at);
  }

  /** A command about another guest leaves this one's key alone. */
  lemma OthersTrack(
    keys: map<GuestId, Key>, e: Event, guest: GuestId, last: map<SocketId, int>, ttl: int, keyTtl: int)
    requires Tracks(keys, guest, last, ttl, e.at) && e.guest != guest
    ensures Tracks(Step(keys, e, ttl, keyTtl), guest, last, ttl, e.at)
  {
  }

  lemma StepTracks(
    keys: map<GuestId, Key>, e: Event, guest: GuestId, last: map<SocketId, int>, ttl: int, keyTtl: int)
    requires 0 < ttl <= keyTtl && Tracks(keys, guest, last, ttl, e.at)
    requires forall s :: s in last ==> last[s] <= e.at
    ensures Tracks(Step(keys, e, ttl, keyTtl), guest, LastAfter(last, e, guest), ttl, e.at)
  {
    if e.guest != guest {
      OthersTrack(keys, e, guest, last, ttl, keyTtl);
    } else {
      match e
      case RefreshEvent(_, socket, at) => RefreshTracks(keys, guest, socket, last, ttl, keyTtl, at);
      case RemoveEvent(_, socket, at) => RemoveTracks(keys, guest, socket, last, ttl, at);
      case CountEvent(_, at) => CountTracks(keys, guest, last, ttl, at);
    }
  }

  lemma {:induction false} RunTracks(events: seq<Event>, guest: GuestId, ttl: int, keyTtl: int, now: int)
    requires 0 < ttl <= keyTtl && Ordered(events)
    requires events != [] ==> events[|events| - 1].at <= now
    ensures Tracks(Run(events, ttl, keyTtl), guest, LastRefresh(events, guest), ttl, now)
    ensures forall s :: s in LastRefresh(events, guest) ==> LastRefresh(events, guest)[s] <= now
  {
    if events != [] {
      var front, e := events[..|events| - 1], events[|events| - 1];
      RunTracks(front, guest, ttl, keyTtl, e.at);
      StepTracks(Run(front, ttl, keyTtl), e, guest, LastRefresh(front, guest), ttl, keyTtl);
      TracksLater(Run(events, ttl, keyTtl), guest, LastRefresh(events, guest), ttl, e.at, now);
    }
  }

  /** After any run in time order, what every command finds for a guest is exactly the sockets
      refreshed less than the time-to-live ago and not removed since. */
  lemma PresenceIsExact(events: seq<Event>, guest: GuestId, ttl: int, keyTtl: int, now: int)
    requires 0 < ttl <= keyTtl && Ordered(events)
    requires events != [] ==> events[|events| - 1].at <= now
    ensures Pruned(Members(Run(events, ttl, keyTtl), guest, now), now).Keys == Live(events, guest, ttl, now)
    ensures |Pruned(Members(Run(events, ttl, keyTtl), guest, now), now)| == |Live(events, guest, ttl, now)|
  {
    RunTracks(events, guest, ttl, keyTtl, now);
    PrunedIsLive(Run(events, ttl, keyTtl), guest, LastRefresh(events, guest), ttl, now);
  }

  /** Removing a socket answers zero exactly when no other socket is live. */
  lemma RemoveAnswersZeroExactly(events: seq<Event>, guest: GuestId, socket: SocketId, ttl: int, keyTtl: int, now: int)
    requires 0 < ttl <= keyTtl && Ordered(events)
    requires events != [] ==> events[|events| - 1].at <= now
    ensures |Pruned(Members(Run(events, ttl, keyTtl), guest, now), now) - {socket}| == 0 <==>
            Live(events, guest, ttl, now) <= {socket}
  {
    PresenceIsExact(events, guest, ttl, keyTtl, now);
    var found := Pruned(Members(Run(events, ttl, keyTtl), guest, now), now);
    assert (found - {socket}).Keys == found.Keys - {socket};
    assert |found - {socket}| == |(found - {socket}).Keys|;
  }
}
