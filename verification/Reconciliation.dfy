/** The reconciliation job: keyset pages over the active games repair the Redis keys of each,
    and scanned active-game pointers are compared with the durable assignments. */
module Reconciliation {
  import opened Domain
  import opened ChessEngine
  import opened GameDatabase
  import opened Snapshots
  import opened EphemeralState
  import G = GuardedJob

  // ----- the keyset -----

  /** A position in the listing: games are listed by the time of their last update, then by id. */
  datatype Cursor = Cursor(updatedAt: int, id: GameId)

  type UpdateTimes = GameId -> int

  predicate Before(a: Cursor, b: Cursor) {
    a.updatedAt < b.updatedAt || (a.updatedAt == b.updatedAt && a.id < b.id)
  }

  predicate Ascending(keys: seq<Cursor>) {
    forall i, j :: 0 <= i < j < |keys| ==> Before(keys[i], keys[j])
  }

  predicate Active(db: Db, game: GameId) { game in db.games && !db.games[game].game.status.Terminal() }

  /** The keys of the active games after a cursor. */
  function KeysAfter(db: Db, updated: UpdateTimes, cursor: Option<Cursor>): set<Cursor> {
    set g | g in db.games && Active(db, g) && (cursor.Some? ==> Before(cursor.value, Cursor(updated(g), g)))
      :: Cursor(updated(g), g)
  }

  predicate IsLeast(keys: set<Cursor>, least: Cursor) {
    least in keys && forall k :: k in keys && k != least ==> Before(least, k)
  }

  lemma {:induction false} LeastExists(keys: set<Cursor>)
    requires keys != {}
    ensures exists least :: IsLeast(keys, least)
  {
    var any :| any in keys;
    if keys == {any} {
      assert IsLeast(keys, any);
    } else {
      LeastExists(keys - {any});
      var rest :| IsLeast(keys - {any}, rest);
      var least := if Before(any, rest) then any else rest;
      forall k | k in keys && k != least
        ensures Before(least, k)
      {
        assert k == any || k in keys - {any};
      }
      assert IsLeast(keys, least);
    }
  }

  /** The keys in listing order. */
  ghost predicate Lists(keys: set<Cursor>, listing: seq<Cursor>) {
    Ascending(listing) && forall k :: k in listing <==> k in keys
  }

  lemma {:induction false} ListingExists(keys: set<Cursor>)
    ensures exists listing :: Lists(keys, listing)
    decreases |keys|
  {
    if keys == {} {
      assert Lists(keys, []);
    } else {
      LeastExists(keys);
      var least :| IsLeast(keys, least);
      ListingExists(keys - {least});
      var rest :| Lists(keys - {least}, rest);
      forall i | 0 <= i < |rest|
        ensures Before(least, rest[i])
      {
        assert rest[i] in rest;
      }
      assert forall k :: k in keys <==> k == least || k in keys - {least};
      assert Lists(keys, [least] + rest);
    }
  }

  ghost function Sorted(keys: set<Cursor>): (listing: seq<Cursor>)
    ensures Lists(keys, listing)
  {
    ListingExists(keys);
    var listing :| Lists(keys, listing);
    listing
  }

  /** An ascending listing is determined by what it lists. */
  lemma {:induction false} AscendingIsUnique(a: seq<Cursor>, b: seq<Cursor>)
    requires Ascending(a) && Ascending(b)
    requires forall k :: k in a <==> k in b
    ensures a == b
  {
    NonEmptyHasOne(a);
    NonEmptyHasOne(b);
    if a != [] {
      assert a[0] in b && b[0] in a;
      assert a[0] == b[0];
      forall k | k in a[1..] ensures k in b[1..] {
        assert k in b && Before(a[0], k);
      }
      forall k | k in b[1..] ensures k in a[1..] {
        assert k in a && Before(b[0], k);
      }
      AscendingIsUnique(a[1..], b[1..]);
    }
  }

  lemma NonEmptyHasOne(keys: seq<Cursor>)
    ensures keys != [] ==> exists k :: k in keys
  {
    if keys != [] {
      assert keys[0] in keys;
    }
  }

  /** The listing of all active games. */
  ghost function Listing(db: Db, updated: UpdateTimes): seq<Cursor> { Sorted(KeysAfter(db, updated, None)) }

  /** The query: active games after the cursor, in order, at most `limit` of them. */
  ghost function Page(db: Db, updated: UpdateTimes, limit: nat, cursor: Option<Cursor>): seq<Cursor> {
    var rest := Sorted(KeysAfter(db, updated, cursor));
    if |rest| <= limit then rest else rest[..limit]
  }

  /** The cursor a run leaves: the last key of a full page, else back to the start. */
  function CursorAfter(page: seq<Cursor>, limit: nat): Option<Cursor> {
    if |page| == limit && page != [] then Some(page[|page| - 1]) else None
  }

  /** The cursor stands just before position i of the listing. */
  predicate StandsAt(listing: seq<Cursor>, cursor: Option<Cursor>, i: nat) {
    i <= |listing| && (if i == 0 then cursor.None? else cursor == Some(listing[i - 1]))
  }

  /** What is left after the cursor is the rest of the listing. */
  lemma RestIsSuffix(db: Db, updated: UpdateTimes, cursor: Option<Cursor>, i: nat)
    requires StandsAt(Listing(db, updated), cursor, i)
    ensures Sorted(KeysAfter(db, updated, cursor)) == Listing(db, updated)[i..]
  {
    var listing := Listing(db, updated);
    var rest := Sorted(KeysAfter(db, updated, cursor));
    forall k ensures k in rest <==> k in listing[i..] {
      InRestExactly(db, updated, cursor, i, k);
    }
    AscendingIsUnique(rest, listing[i..]);
  }

  /** Where a page read from position i ends. */
  function PageEnd(total: nat, i: nat, limit: nat): nat
    requires i <= total
  {
    if total - i <= limit then total else i + limit
  }

  /** A page read from position i is the next part of the listing. */
  lemma PageIsNextPart(db: Db, updated: UpdateTimes, limit: nat, cursor: Option<Cursor>, i: nat)
    requires 0 < limit && StandsAt(Listing(db, updated), cursor, i)
    ensures var listing := Listing(db, updated);
            var page := Page(db, updated, limit, cursor);
            var end := PageEnd(|listing|, i, limit);
            && page == listing[i..end]
            && (CursorAfter(page, limit).None? ==> end == |listing|)
            && (CursorAfter(page, limit).Some? ==> end == i + limit && StandsAt(listing, CursorAfter(page, limit), end))
  {
    RestIsSuffix(db, updated, cursor, i);
    PartOfListing(Listing(db, updated), limit, i);
  }

  lemma PartOfListing(listing: seq<Cursor>, limit: nat, i: nat)
    requires 0 < limit && i <= |listing|
    ensures var rest := listing[i..];
            var page := if |rest| <= limit then rest else rest[..limit];
            var end := PageEnd(|listing|, i, limit);
            && page == listing[i..end]
            && (CursorAfter(page, limit).None? ==> end == |listing|)
            && (CursorAfter(page, limit).Some? ==> end == i + limit && StandsAt(listing, CursorAfter(page, limit), end))
  {
  }

  lemma PastTheCursor(listing: seq<Cursor>, i: nat, j: nat)
    requires Ascending(listing) && i <= |listing| && j < |listing|
    requires i > 0 ==> Before(listing[i - 1], listing[j])
    ensures i <= j
  {
  }

  lemma InRestExactly(db: Db, updated: UpdateTimes, cursor: Option<Cursor>, i: nat, k: Cursor)
    requires StandsAt(Listing(db, updated), cursor, i)
    ensures k in KeysAfter(db, updated, cursor) <==> k in Listing(db, updated)[i..]
  {
    var listing := Listing(db, updated);
    if k in KeysAfter(db, updated, cursor) {
      assert k in KeysAfter(db, updated, None);
      var j :| 0 <= j < |listing| && listing[j] == k;
      PastTheCursor(listing, i, j);
      assert listing[i..][j - i] == k;
    }
    if k in listing[i..] {
      var j :| i <= j < |listing| && listing[j] == k;
      assert k in listing;
      if i > 0 {
        assert Before(listing[i - 1], listing[j]);
      }
    }
  }

  /** Where successive runs leave the cursor, the table unchanged. */
  ghost function CursorOf(db: Db, updated: UpdateTimes, limit: nat, runs: nat): Option<Cursor> {
    if runs == 0 then None
    else CursorAfter(Page(db, updated, limit, CursorOf(db, updated, limit, runs - 1)), limit)
  }

  /** What that many runs visit, in order. */
  ghost function Visited(db: Db, updated: UpdateTimes, limit: nat, runs: nat): seq<Cursor> {
    if runs == 0 then []
    else Visited(db, updated, limit, runs - 1) + Page(db, updated, limit, CursorOf(db, updated, limit, runs - 1))
  }

  /** That many runs have visited exactly the first `seen` of the listing, and the cursor stands there. */
  ghost predicate HaveVisited(db: Db, updated: UpdateTimes, limit: nat, listing: seq<Cursor>, runs: nat, seen: nat) {
    && seen <= |listing| && Visited(db, updated, limit, runs) == listing[..seen]
    && StandsAt(listing, CursorOf(db, updated, limit, runs), seen)
  }

  lemma OneMoreRun(db: Db, updated: UpdateTimes, limit: nat, listing: seq<Cursor>, runs: nat, seen: nat)
    requires 0 < limit && listing == Listing(db, updated) && seen + limit <= |listing|
    requires HaveVisited(db, updated, limit, listing, runs, seen)
    ensures HaveVisited(db, updated, limit, listing, runs + 1, seen + limit)
  {
    NextPage(db, updated, limit, CursorOf(db, updated, limit, runs), seen, Visited(db, updated, limit, runs));
  }

  lemma NoRunYet(db: Db, updated: UpdateTimes, limit: nat, listing: seq<Cursor>)
    ensures HaveVisited(db, updated, limit, listing, 0, 0)
  {
  }

  lemma {:induction false} RunsVisitPrefix(
    db: Db, updated: UpdateTimes, limit: nat, listing: seq<Cursor>, runs: nat, seen: nat)
    requires 0 < limit && listing == Listing(db, updated) && seen == Total(runs, limit) && seen <= |listing|
    ensures HaveVisited(db, updated, limit, listing, runs, seen)
  {
    if runs == 0 {
      NoRunYet(db, updated, limit, listing);
    } else {
      var before, had := runs - 1, seen - limit;
      RunsVisitPrefix(db, updated, limit, listing, before, had);
      OneMoreRun(db, updated, limit, listing, before, had);
      assert before + 1 == runs && had + limit == seen;
    }
  }

  /** A full page read from position i extends what was visited up to there. */
  lemma NextPage(db: Db, updated: UpdateTimes, limit: nat, cursor: Option<Cursor>, i: nat, visited: seq<Cursor>)
    requires 0 < limit && StandsAt(Listing(db, updated), cursor, i) && visited == Listing(db, updated)[..i]
    requires i + limit <= |Listing(db, updated)|
    ensures visited + Page(db, updated, limit, cursor) == Listing(db, updated)[..i + limit]
    ensures StandsAt(Listing(db, updated), CursorAfter(Page(db, updated, limit, cursor), limit), i + limit)
  {
    PageIsNextPart(db, updated, limit, cursor, i);
    assert Listing(db, updated)[..i + limit] == Listing(db, updated)[..i] + Listing(db, updated)[i..i + limit];
  }

  function Total(runs: nat, limit: nat): nat { if runs == 0 then 0 else Total(runs - 1, limit) + limit }

  lemma {:induction false} TotalIsProduct(runs: nat, limit: nat)
    ensures Total(runs, limit) == runs * limit
  {
    if runs > 0 {
      TotalIsProduct(runs - 1, limit);
    }
  }

  lemma FullPages(n: nat, limit: nat)
    requires 0 < limit
    ensures n / limit * limit <= n < n / limit * limit + limit
  {
  }

  /** One cycle, from a fresh cursor until the cursor is fresh again, is one run more than the
      full pages; it visits every active game exactly once, in listing order. */
  lemma CycleVisitsEachOnce(db: Db, updated: UpdateTimes, limit: nat)
    requires 0 < limit
    ensures var runs := |Listing(db, updated)| / limit + 1;
            && Visited(db, updated, limit, runs) == Listing(db, updated)
            && CursorOf(db, updated, limit, runs).None?
            && forall k :: 0 < k < runs ==> CursorOf(db, updated, limit, k).Some?
    ensures Ascending(Listing(db, updated))
    ensures forall g :: Active(db, g) <==> Cursor(updated(g), g) in Listing(db, updated)
    ensures forall k :: k in Listing(db, updated) ==> Active(db, k.id)
  {
    var full := |Listing(db, updated)| / limit;
    FullPages(|Listing(db, updated)|, limit);
    TotalIsProduct(full, limit);
    LastRunEndsCycle(db, updated, limit, full, full * limit);
    forall k | 0 < k < full + 1
      ensures CursorOf(db, updated, limit, k).Some?
    {
      MulMonotone(k, full, limit);
      TotalIsProduct(k, limit);
      RunsVisitPrefix(db, updated, limit, Listing(db, updated), k, k * limit);
    }
    ListsTheActive(db, updated);
  }

  lemma LastRunEndsCycle(db: Db, updated: UpdateTimes, limit: nat, full: nat, seen: nat)
    requires 0 < limit && seen == Total(full, limit) && seen <= |Listing(db, updated)| < seen + limit
    ensures Visited(db, updated, limit, full + 1) == Listing(db, updated)
    ensures CursorOf(db, updated, limit, full + 1).None?
  {
    var cursor, visited := CursorOf(db, updated, limit, full), Visited(db, updated, limit, full);
    RunsVisitPrefix(db, updated, limit, Listing(db, updated), full, seen);
    PageIsNextPart(db, updated, limit, cursor, seen);
    assert CursorOf(db, updated, limit, full + 1) == CursorAfter(Page(db, updated, limit, cursor), limit);
    assert Visited(db, updated, limit, full + 1) == visited + Page(db, updated, limit, cursor);
    assert Listing(db, updated) == Listing(db, updated)[..seen] + Listing(db, updated)[seen..];
  }

  lemma ListsTheActive(db: Db, updated: UpdateTimes)
    ensures Ascending(Listing(db, updated))
    ensures forall g :: Active(db, g) <==> Cursor(updated(g), g) in Listing(db, updated)
    ensures forall k :: k in Listing(db, updated) ==> Active(db, k.id)
  {
    forall g
      ensures Active(db, g) <==> Cursor(updated(g), g) in Listing(db, updated)
    {
      assert Active(db, g) ==> Cursor(updated(g), g) in KeysAfter(db, updated, None);
    }
  }

  lemma MulMonotone(a: nat, b: nat, m: nat)
    requires a <= b && 0 < m && 0 < a
    ensures 0 < a * m <= b * m
  {
  }

  // ----- repairing what a page lists -----

  datatype Report = Report(activeGame: nat, grace: nat, snapshot: nat, staleActiveGame: nat, state: nat)

  const NothingRepaired: Report := Report(0, 0, 0, 0, 0)

  function Plus(report: Report, drift: Drift): Report {
    report.(
      activeGame := report.activeGame + |drift.missingActive|,
      grace := report.grace + |drift.graceDrift|,
      snapshot := report.snapshot + (if drift.snapshotMissing then 1 else 0),
      state := report.state + |drift.missingState|)
  }

  /** The setting of one cycle: an unchanged table, at one instant. */
  datatype Setting = Setting(ttls: Ttls, profiles: Profiles, db: Db, observedAt: int, now: int)

  /** A game the job can restore: active, and viewable at the instant of the read. */
  predicate Restorable(c: Setting, game: GameId) {
    && Active(c.db, game) && c.db.games[game].game.id == game
    && c.db.games[game].white.guest != c.db.games[game].black.guest
    && ViewOf(c.db.games[game].game, c.observedAt).Ok?
  }

  predicate AllRestorable(c: Setting, keys: seq<Cursor>) {
    forall i :: 0 <= i < |keys| ==> Restorable(c, keys[i].id)
  }

  /** One listed game: restored if anything about it has drifted. */
  function Repair(c: Setting, r: Redis, game: GameId): Redis
    requires Restorable(c, game)
  {
    var agg := c.db.games[game];
    if DriftOf(r, agg, c.now).Count() == 0 then r
    else Restored(r, c.ttls, c.profiles, agg, ViewOf(agg.game, c.observedAt).value, c.now)
  }

  function RepairAll(c: Setting, r: Redis, keys: seq<Cursor>): Redis
    requires AllRestorable(c, keys)
  {
    if keys == [] then r
    else Repair(c, RepairAll(c, r, keys[..|keys| - 1]), keys[|keys| - 1].id)
  }

  /** What the report of these repairs counts. */
  function ReportOf(c: Setting, r: Redis, keys: seq<Cursor>): Report
    requires AllRestorable(c, keys)
  {
    if keys == [] then NothingRepaired
    else
      var front := keys[..|keys| - 1];
      Plus(ReportOf(c, r, front), DriftOf(RepairAll(c, r, front), c.db.games[keys[|keys| - 1].id], c.now))
  }

  /** The drift of these games as it stood before any repair. */
  function InitialDrift(c: Setting, r: Redis, keys: seq<Cursor>): Report
    requires AllRestorable(c, keys)
  {
    if keys == [] then NothingRepaired
    else Plus(InitialDrift(c, r, keys[..|keys| - 1]), DriftOf(r, c.db.games[keys[|keys| - 1].id], c.now))
  }

  lemma ActiveIsRestorable(rules: Rules, c: Setting, game: GameId)
    requires GamesOk(rules, c.db) && Active(c.db, game)
    ensures Restorable(c, game)
  {
    assert GameOk(rules, c.db, game);
    ViewNeverFails(rules, c.db.games[game], c.observedAt);
  }

  /** Two active games have no player in common. */
  lemma ActivePlayersAreDisjoint(db: Db, game: GameId, other: GameId)
    requires AssignmentsOk(db) && Active(db, game) && Active(db, other) && game != other
    ensures !Plays(db.games[other], db.games[game].white.guest)
    ensures !Plays(db.games[other], db.games[game].black.guest)
  {
    var a, b := db.games[game], db.games[other];
    assert PlaysActive(db, a.white.guest, game) && PlaysActive(db, a.black.guest, game);
    assert PlaysActive(db, b.white.guest, other) && PlaysActive(db, b.black.guest, other);
  }

  lemma RepairFixesItsGame(c: Setting, r: Redis, game: GameId)
    requires c.ttls.Valid() && Restorable(c, game)
    ensures DriftOf(Repair(c, r, game), c.db.games[game], c.now).Count() == 0
  {
    var agg := c.db.games[game];
    if DriftOf(r, agg, c.now).Count() != 0 {
      RestoredHasNoDrift(r, c.ttls, c.profiles, agg, ViewOf(agg.game, c.observedAt).value, c.now);
    }
  }

  lemma RepairLeavesOthers(c: Setting, r: Redis, game: GameId, other: GameId)
    requires AssignmentsOk(c.db) && Restorable(c, game) && Restorable(c, other) && game != other
    ensures Agree(r, Repair(c, r, game), c.db.games[other])
  {
    var agg := c.db.games[game];
    ActivePlayersAreDisjoint(c.db, game, other);
    if DriftOf(r, agg, c.now).Count() != 0 {
      RestoredLeavesOthers(r, c.ttls, c.profiles, agg, ViewOf(agg.game, c.observedAt).value, c.db.games[other], c.now);
    }
  }

  /** Repairing other games leaves a game's keys alone. */
  lemma {:induction false} RepairsLeaveOthers(c: Setting, r: Redis, keys: seq<Cursor>, other: GameId)
    requires AssignmentsOk(c.db) && AllRestorable(c, keys) && Restorable(c, other)
    requires forall i :: 0 <= i < |keys| ==> keys[i].id != other
    ensures Agree(r, RepairAll(c, r, keys), c.db.games[other])
  {
    if keys != [] {
      var front, last := keys[..|keys| - 1], keys[|keys| - 1];
      RepairsLeaveOthers(c, r, front, other);
      RepairLeavesOthers(c, RepairAll(c, r, front), last.id, other);
      AgreeIsTransitive(r, RepairAll(c, r, front), RepairAll(c, r, keys), c.db.games[other]);
    }
  }

  predicate DistinctGames(keys: seq<Cursor>) {
    forall i, j :: 0 <= i < j < |keys| ==> keys[i].id != keys[j].id
  }

  /** Repairing a list of distinct games leaves none of them drifted: later repairs never undo earlier ones. */
  lemma {:induction false} RepairsFixAll(c: Setting, r: Redis, keys: seq<Cursor>, i: nat)
    requires c.ttls.Valid() && AssignmentsOk(c.db) && AllRestorable(c, keys) && DistinctGames(keys) && i < |keys|
    ensures DriftOf(RepairAll(c, r, keys), c.db.games[keys[i].id], c.now).Count() == 0
  {
    var front, last := keys[..|keys| - 1], keys[|keys| - 1];
    var before := RepairAll(c, r, front);
    if i == |front| {
      RepairFixesItsGame(c, before, last.id);
    } else {
      RepairsFixAll(c, r, front, i);
      RepairLeavesOthers(c, before, last.id, keys[i].id);
      AgreeingStatesDriftAlike(before, RepairAll(c, r, keys), c.db.games[keys[i].id], c.now);
    }
  }

  /** The report counts each drift that was there before the repairs, once. */
  lemma {:induction false} ReportCountsInitialDrift(c: Setting, r: Redis, keys: seq<Cursor>)
    requires AssignmentsOk(c.db) && AllRestorable(c, keys) && DistinctGames(keys)
    ensures ReportOf(c, r, keys) == InitialDrift(c, r, keys)
  {
    if keys != [] {
      var front, last := keys[..|keys| - 1], keys[|keys| - 1];
      ReportCountsInitialDrift(c, r, front);
      RepairsLeaveOthers(c, r, front, last.id);
      AgreeingStatesDriftAlike(r, RepairAll(c, r, front), c.db.games[last.id], c.now);
    }
  }

  // ----- the scanned pointers -----

  function Assigned(db: Db, guest: GuestId): Option<GameId> {
    if guest in db.assignments then Some(db.assignments[guest]) else None
  }

  function Repoint(c: Setting, r: Redis, guest: GuestId): Redis {
    var cached := ActiveGame(r, guest);
    var durable := Assigned(c.db, guest);
    if cached == durable then r
    else if durable.None? then ClearActive(r, c.ttls, guest, cached.GetOr(0), c.now)
    else RestoreActive(r, c.ttls, guest, durable.value, c.now)
  }

  function RepointAll(c: Setting, r: Redis, guests: seq<GuestId>): Redis {
    if guests == [] then r else Repoint(c, RepointAll(c, r, guests[..|guests| - 1]), guests[|guests| - 1])
  }

  /** The guests among the first `batch` keys of a scan. */
  function Scanned(keys: seq<Option<GuestId>>, batch: nat): seq<GuestId> {
    if keys == [] || batch == 0 then []
    else (if keys[0].Some? then [keys[0].value] else []) + Scanned(keys[1..], batch - 1)
  }

  lemma {:induction false} ScanGrows(keys: seq<Option<GuestId>>, i: nat)
    requires i < |keys|
    ensures Scanned(keys, i + 1) == Scanned(keys, i) + (if keys[i].Some? then [keys[i].value] else [])
  {
    if i > 0 {
      ScanGrows(keys[1..], i - 1);
    }
  }

  lemma {:induction false} ScanEnds(keys: seq<Option<GuestId>>, cut: nat, batch: nat)
    requires cut == if |keys| <= batch then |keys| else batch
    ensures Scanned(keys, cut) == Scanned(keys, batch)
  {
    if keys != [] && batch > 0 {
      ScanEnds(keys[1..], cut - 1, batch - 1);
    }
  }

  /** How many of the scanned pointers were wrong when the job came to them. */
  function StaleCount(c: Setting, r: Redis, guests: seq<GuestId>): nat {
    if guests == [] then 0
    else
      var front, last := guests[..|guests| - 1], guests[|guests| - 1];
      StaleCount(c, r, front) + if ActiveGame(RepointAll(c, r, front), last) != Assigned(c.db, last) then 1 else 0
  }

  lemma OneMoreScanned(c: Setting, r: Redis, guests: seq<GuestId>, guest: GuestId)
    ensures RepointAll(c, r, guests + [guest]) == Repoint(c, RepointAll(c, r, guests), guest)
    ensures StaleCount(c, r, guests + [guest]) ==
            StaleCount(c, r, guests)
            + if ActiveGame(RepointAll(c, r, guests), guest) != Assigned(c.db, guest) then 1 else 0
  {
    assert (guests + [guest])[..|guests|] == guests;
  }

  /** Every scanned pointer becomes the durable one; the others stay as they were. */
  lemma {:induction false} RepointedAreExact(c: Setting, r: Redis, guests: seq<GuestId>, guest: GuestId)
    ensures ActiveGame(RepointAll(c, r, guests), guest) ==
            if guest in guests then Assigned(c.db, guest) else ActiveGame(r, guest)
  {
    if guests != [] {
      var front, last := guests[..|guests| - 1], guests[|guests| - 1];
      RepointedAreExact(c, r, front, guest);
      assert guest in guests <==> guest in front || guest == last;
    }
  }

  /** Repointing never disturbs an active game that has no drift. */
  lemma RepointKeepsUndrifted(c: Setting, r: Redis, guest: GuestId, game: GameId)
    requires AssignmentsOk(c.db) && Restorable(c, game) && DriftOf(r, c.db.games[game], c.now).Count() == 0
    ensures DriftOf(Repoint(c, r, guest), c.db.games[game], c.now).Count() == 0
  {
    var agg := c.db.games[game];
    if Plays(agg, guest) {
      assert PlaysActive(c.db, guest, game);
    } else {
      PointersLeaveOthers(r, c.ttls, guest, ActiveGame(r, guest).GetOr(0), agg, c.now);
      PointersLeaveOthers(r, c.ttls, guest, Assigned(c.db, guest).GetOr(0), agg, c.now);
      AgreeingStatesDriftAlike(r, Repoint(c, r, guest), agg, c.now);
    }
  }

  lemma {:induction false} RepointsKeepUndrifted(c: Setting, r: Redis, guests: seq<GuestId>, game: GameId)
    requires AssignmentsOk(c.db) && Restorable(c, game) && DriftOf(r, c.db.games[game], c.now).Count() == 0
    ensures DriftOf(RepointAll(c, r, guests), c.db.games[game], c.now).Count() == 0
  {
    if guests != [] {
      RepointsKeepUndrifted(c, r, guests[..|guests| - 1], game);
      RepointKeepsUndrifted(c, RepointAll(c, r, guests[..|guests| - 1]), guests[|guests| - 1], game);
    }
  }

  // ----- whole cycles -----

  predicate EveryActiveRestorable(c: Setting) {
    forall g {:trigger Restorable(c, g)} :: g in c.db.games && Active(c.db, g) ==> Restorable(c, g)
  }

  lemma PageIsRestorable(c: Setting, updated: UpdateTimes, limit: nat, cursor: Option<Cursor>)
    requires EveryActiveRestorable(c)
    ensures AllRestorable(c, Page(c.db, updated, limit, cursor)) && DistinctGames(Page(c.db, updated, limit, cursor))
  {
    var rest := Sorted(KeysAfter(c.db, updated, cursor));
    forall i | 0 <= i < |rest|
      ensures Restorable(c, rest[i].id) && rest[i] == Cursor(updated(rest[i].id), rest[i].id)
    {
      assert rest[i] in rest;
    }
  }

  /** The pages that many runs list. */
  ghost function PagesOf(db: Db, updated: UpdateTimes, limit: nat, runs: nat): seq<seq<Cursor>> {
    if runs == 0 then []
    else PagesOf(db, updated, limit, runs - 1) + [Page(db, updated, limit, CursorOf(db, updated, limit, runs - 1))]
  }

  predicate PagesRestorable(c: Setting, pages: seq<seq<Cursor>>) {
    forall p :: 0 <= p < |pages| ==> AllRestorable(c, pages[p]) && DistinctGames(pages[p])
  }

  lemma {:induction false} PagesAreRestorable(c: Setting, updated: UpdateTimes, limit: nat, runs: nat)
    requires EveryActiveRestorable(c)
    ensures |PagesOf(c.db, updated, limit, runs)| == runs && PagesRestorable(c, PagesOf(c.db, updated, limit, runs))
  {
    if runs > 0 {
      PagesAreRestorable(c, updated, limit, runs - 1);
      PageIsRestorable(c, updated, limit, CursorOf(c.db, updated, limit, runs - 1));
      OneMorePage(c, PagesOf(c.db, updated, limit, runs - 1),
                  Page(c.db, updated, limit, CursorOf(c.db, updated, limit, runs - 1)));
    }
  }

  lemma OneMorePage(c: Setting, pages: seq<seq<Cursor>>, page: seq<Cursor>)
    requires PagesRestorable(c, pages) && AllRestorable(c, page) && DistinctGames(page)
    ensures PagesRestorable(c, pages + [page])
  {
  }

  /** What is visited is listed on one of the pages. */
  lemma {:induction false} VisitedIsListed(db: Db, updated: UpdateTimes, limit: nat, runs: nat, key: Cursor)
    returns (p: nat, i: nat)
    requires key in Visited(db, updated, limit, runs)
    ensures OnPage(PagesOf(db, updated, limit, runs), p, i, key)
  {
    var before := PagesOf(db, updated, limit, runs - 1);
    var page := Page(db, updated, limit, CursorOf(db, updated, limit, runs - 1));
    if key in page {
      p := |before|;
      i := IndexOf(page, key);
    } else {
      p, i := VisitedIsListed(db, updated, limit, runs - 1, key);
    }
    StillOnPage(before, page, p, i, key);
  }

  predicate OnPage(pages: seq<seq<Cursor>>, p: nat, i: nat, key: Cursor) {
    p < |pages| && i < |pages[p]| && pages[p][i] == key
  }

  lemma IndexOf(page: seq<Cursor>, key: Cursor) returns (i: nat)
    requires key in page
    ensures i < |page| && page[i] == key
  {
    i :| 0 <= i < |page| && page[i] == key;
  }

  lemma StillOnPage(before: seq<seq<Cursor>>, page: seq<Cursor>, p: nat, i: nat, key: Cursor)
    requires OnPage(before, p, i, key) || (p == |before| && i < |page| && page[i] == key)
    ensures OnPage(before + [page], p, i, key)
  {
  }

  /** The Redis state after these pages were reconciled, one a run; scans[i] are the pointers
      the scan of run i returned. */
  function AfterRuns(c: Setting, r: Redis, pages: seq<seq<Cursor>>, scans: seq<seq<GuestId>>): Redis
    requires |pages| <= |scans| && PagesRestorable(c, pages)
  {
    if pages == [] then r
    else
      var last := |pages| - 1;
      RepointAll(c, RepairAll(c, AfterRuns(c, r, pages[..last], scans), pages[last]), scans[last])
  }

  /** A page fixes the games it lists and leaves the other active games' keys alone. */
  lemma PageLeavesNoDrift(c: Setting, r: Redis, page: seq<Cursor>, game: GameId)
    requires c.ttls.Valid() && AssignmentsOk(c.db) && AllRestorable(c, page) && DistinctGames(page)
    requires Restorable(c, game)
    requires (exists i :: 0 <= i < |page| && page[i].id == game) || DriftOf(r, c.db.games[game], c.now).Count() == 0
    ensures DriftOf(RepairAll(c, r, page), c.db.games[game], c.now).Count() == 0
  {
    if i :| 0 <= i < |page| && page[i].id == game {
      RepairsFixAll(c, r, page, i);
    } else {
      RepairsLeaveOthers(c, r, page, game);
      AgreeingStatesDriftAlike(r, RepairAll(c, r, page), c.db.games[game], c.now);
    }
  }

  lemma RunLeavesNoDrift(c: Setting, r: Redis, page: seq<Cursor>, guests: seq<GuestId>, game: GameId)
    requires c.ttls.Valid() && AssignmentsOk(c.db) && AllRestorable(c, page) && DistinctGames(page)
    requires Restorable(c, game)
    requires (exists i :: 0 <= i < |page| && page[i].id == game) || DriftOf(r, c.db.games[game], c.now).Count() == 0
    ensures DriftOf(RepointAll(c, RepairAll(c, r, page), guests), c.db.games[game], c.now).Count() == 0
  {
    PageLeavesNoDrift(c, r, page, game);
    RepointsKeepUndrifted(c, RepairAll(c, r, page), guests, game);
  }

  /** Everything listed so far has no drift, whatever the scans repaired in between. */
  lemma {:induction false} ListedHaveNoDrift(
    c: Setting, r: Redis, pages: seq<seq<Cursor>>, scans: seq<seq<GuestId>>, p: nat, i: nat)
    requires c.ttls.Valid() && AssignmentsOk(c.db) && |pages| <= |scans| && PagesRestorable(c, pages)
    requires p < |pages| && i < |pages[p]|
    ensures DriftOf(AfterRuns(c, r, pages, scans), c.db.games[pages[p][i].id], c.now).Count() == 0
  {
    var last := |pages| - 1;
    var before := AfterRuns(c, r, pages[..last], scans);
    if p < last {
      ListedHaveNoDrift(c, r, pages[..last], scans, p, i);
    }
    RunLeavesNoDrift(c, before, pages[last], scans[last], pages[p][i].id);
  }

  /** With the table unchanged, one cycle of runs ends with no drift in any active game,
      whatever the state of Redis before and whatever the scans return. */
  lemma CycleLeavesNoDrift(
    rules: Rules, c: Setting, updated: UpdateTimes, limit: nat, r: Redis, scans: seq<seq<GuestId>>, game: GameId)
    requires DbOk(rules, c.db) && c.ttls.Valid() && 0 < limit && Active(c.db, game)
    requires |scans| == |Listing(c.db, updated)| / limit + 1
    ensures var pages := PagesOf(c.db, updated, limit, |scans|);
            && |pages| == |scans| && PagesRestorable(c, pages)
            && DriftOf(AfterRuns(c, r, pages, scans), c.db.games[game], c.now).Count() == 0
  {
    var pages := PagesOf(c.db, updated, limit, |scans|);
    forall g | g in c.db.games && Active(c.db, g)
      ensures Restorable(c, g)
    {
      ActiveIsRestorable(rules, c, g);
    }
    PagesAreRestorable(c, updated, limit, |scans|);
    CycleVisitsEachOnce(c.db, updated, limit);
    var p, i := VisitedIsListed(c.db, updated, limit, |scans|, Cursor(updated(game), game));
    ListedHaveNoDrift(c, r, pages, scans, p, i);
  }

  // ----- the job object -----

  class Reconciler {
    const cache: Cache
    const batchSize: nat
    var databaseCursor: Option<Cursor>
    var redisCursor: nat
    var running: bool
    ghost var active: set<G.RunId>

    constructor (cache: Cache, batchSize: nat)
      ensures this.cache == cache && this.batchSize == batchSize && databaseCursor.None? && redisCursor == 0
      ensures G.Guard(running, active) == G.Idle
    {
      this.cache := cache;
      this.batchSize := batchSize;
      databaseCursor, redisCursor := None, 0;
      running, active := false, {};
    }

    /** One page: what the listing query returns for this object's cursor, repaired game by game. */
    method ReconcileDurableGames(c: Setting, ghost updated: UpdateTimes, page: seq<Cursor>) returns (report: Report)
      requires c.ttls == cache.ttls && c.profiles == cache.profiles && EveryActiveRestorable(c)
      requires page == Page(c.db, updated, batchSize, databaseCursor)
      modifies this`databaseCursor, cache
      ensures databaseCursor == CursorAfter(page, batchSize) && AllRestorable(c, page)
      ensures cache.View() == RepairAll(c, old(cache.View()), page)
      ensures report == ReportOf(c, old(cache.View()), page)
    {
      PageIsRestorable(c, updated, batchSize, databaseCursor);
      databaseCursor := if |page| == batchSize && page != [] then Some(page[|page| - 1]) else None;
      report := RepairPage(c, page);
    }

    method RepairPage(c: Setting, page: seq<Cursor>) returns (report: Report)
      requires c.ttls == cache.ttls && c.profiles == cache.profiles && AllRestorable(c, page)
      modifies cache
      ensures cache.View() == RepairAll(c, old(cache.View()), page)
      ensures report == ReportOf(c, old(cache.View()), page)
    {
      report := NothingRepaired;
      for i := 0 to |page|
        invariant cache.View() == RepairAll(c, old(cache.View()), page[..i])
        invariant report == ReportOf(c, old(cache.View()), page[..i])
      {
        assert page[..i + 1][..i] == page[..i];
        var game := page[i].id;
        var agg := c.db.games[game];
        var drift := cache.InspectAllocation(agg, c.now);
        if drift.Count() > 0 {
          var view := ViewOf(agg.game, c.observedAt);
          cache.RestoreSnapshot(agg, view.value, c.now);
          report := Plus(report, drift);
        }
      }
      assert page[..|page|] == page;
    }

    /** One scan: the keys it returned, cut to the batch, each compared with the guest's durable
        assignment; None stands for a key that names no guest. */
    method ReconcileActiveKeys(c: Setting, nextCursor: nat, keys: seq<Option<GuestId>>) returns (repaired: nat)
      requires c.ttls == cache.ttls
      modifies this`redisCursor, cache`active, cache`states
      ensures redisCursor == nextCursor
      ensures cache.View() == RepointAll(c, old(cache.View()), Scanned(keys, batchSize))
      ensures repaired == StaleCount(c, old(cache.View()), Scanned(keys, batchSize))
    {
      redisCursor := nextCursor;
      repaired := 0;
      var cut := if |keys| <= batchSize then |keys| else batchSize;
      for i := 0 to cut
        invariant redisCursor == nextCursor
        invariant cache.View() == RepointAll(c, old(cache.View()), Scanned(keys, i))
        invariant repaired == StaleCount(c, old(cache.View()), Scanned(keys, i))
      {
        ScanGrows(keys, i);
        if keys[i].Some? {
          OneMoreScanned(c, old(cache.View()), Scanned(keys, i), keys[i].value);
          var stale := ReconcileActiveKey(c, keys[i].value);
          repaired := repaired + if stale then 1 else 0;
        } else {
          assert Scanned(keys, i) + [] == Scanned(keys, i);
        }
      }
      ScanEnds(keys, cut, batchSize);
    }

    method ReconcileActiveKey(c: Setting, guest: GuestId) returns (stale: bool)
      requires c.ttls == cache.ttls
      modifies cache`active, cache`states
      ensures cache.View() == Repoint(c, old(cache.View()), guest)
      ensures stale <==> ActiveGame(old(cache.View()), guest) != Assigned(c.db, guest)
    {
      var cached := cache.ReadActiveGame(guest);
      var durable := Assigned(c.db, guest);
      if cached == durable {
        return false;
      }
      stale := true;
      if durable.None? {
        stale := cache.ClearActiveGame(guest, cached.GetOr(0), c.now);
      } else {
        cache.RestoreActiveGame(durable.value, guest, c.now);
      }
    }

    /** One run: a page, then a scan. */
    method RunOnce(
      c: Setting, ghost updated: UpdateTimes, page: seq<Cursor>, nextCursor: nat, keys: seq<Option<GuestId>>)
      returns (report: Report)
      requires c.ttls == cache.ttls && c.profiles == cache.profiles && EveryActiveRestorable(c)
      requires page == Page(c.db, updated, batchSize, databaseCursor)
      modifies this`databaseCursor, this`redisCursor, cache
      ensures databaseCursor == CursorAfter(page, batchSize) && redisCursor == nextCursor && AllRestorable(c, page)
      ensures cache.View() == RepointAll(c, RepairAll(c, old(cache.View()), page), Scanned(keys, batchSize))
      ensures report == ReportOf(c, old(cache.View()), page).(
                          staleActiveGame :=
                            StaleCount(c, RepairAll(c, old(cache.View()), page), Scanned(keys, batchSize)))
    {
      report := ReconcileDurableGames(c, updated, page);
      var stale := ReconcileActiveKeys(c, nextCursor, keys);
      report := report.(staleActiveGame := stale);
    }

    /** runSafely up to its first await: whether this run goes on. */
    method EnterRun(ghost run: G.RunId) returns (entered: bool)
      requires run !in active
      modifies this`running, this`active
      ensures G.Guard(running, active) == G.Entered(old(G.Guard(running, active)), run)
      ensures entered ==> run in active
      ensures !entered ==> old(running)
    {
      if running {
        return false;
      }
      running := true;
      active := active + {run};
      return true;
    }

    /** The end of a run that went on, whether it succeeded or threw. */
    method LeaveRun(ghost run: G.RunId)
      requires run in active
      modifies this`running, this`active
      ensures G.Guard(running, active) == G.Left(old(G.Guard(running, active)), run)
    {
      running := false;
      active := active - {run};
    }

    /** The guarded job: a run that gets in reconciles once and leaves the job as it found it,
        ready for the next; one that does not changes nothing. */
    method RunSafely(
      c: Setting, ghost updated: UpdateTimes, page: seq<Cursor>, nextCursor: nat, keys: seq<Option<GuestId>>,
      ghost run: G.RunId)
      returns (report: Option<Report>)
      requires c.ttls == cache.ttls && c.profiles == cache.profiles && EveryActiveRestorable(c)
      requires page == Page(c.db, updated, batchSize, databaseCursor)
      requires G.Exclusive(G.Guard(running, active)) && run !in active
      modifies this, cache
      ensures G.Guard(running, active) == old(G.Guard(running, active)) && AllRestorable(c, page)
      ensures report.None? <==> old(active) != {}
      ensures report.None? ==>
                && cache.View() == old(cache.View())
                && databaseCursor == old(databaseCursor) && redisCursor == old(redisCursor)
      ensures report.Some? ==>
                && databaseCursor == CursorAfter(page, batchSize) && redisCursor == nextCursor
                && cache.View() == RepointAll(c, RepairAll(c, old(cache.View()), page), Scanned(keys, batchSize))
                && report.value == ReportOf(c, old(cache.View()), page).(
                                     staleActiveGame :=
                                       StaleCount(c, RepairAll(c, old(cache.View()), page), Scanned(keys, batchSize)))
    {
      PageIsRestorable(c, updated, batchSize, databaseCursor);
      var entered := EnterRun(run);
      if !entered {
        return None;
      }
      var done := RunOnce(c, updated, page, nextCursor, keys);
      LeaveRun(run);
      report := Some(done);
    }
  }
}
