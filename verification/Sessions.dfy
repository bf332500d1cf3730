/** Guest sessions, their tokens, and revocation keys that must outlive every token.
    Instants are milliseconds; token claims and key lifetimes are whole seconds (the exp
    claim is section 4.1.4 of RFC 7519). */
module Sessions {
  import opened Domain

  type CommandKey = nat

  /** The lifetime and clock-skew settings, in seconds. */
  datatype Config = Config(ttl: int, skew: int)
  {
    predicate Valid() { 1 <= ttl && 0 <= skew }
  }

  /** The random identifier of a token; never used twice. */
  type TokenId = nat

  datatype Claims = Claims(issuedAt: int, expiresAt: int, jti: TokenId)

  datatype Token = Token(guest: GuestId, iat: int, exp: int, jti: TokenId)
  {
    /** The identity's expiry as a verified token reports it. */
    function ExpiresAt(): int { exp * 1000 }
  }

  datatype SessionCommand =
    | CreateCommand(guest: GuestId, claims: Claims)
    | RenewCommand(guest: GuestId, claims: Claims)
    | ResetCommand(guest: GuestId)

  // ----- issuing and verifying -----

  function Seconds(millis: int): int { millis / 1000 }

  function CeilSeconds(millis: int): int { -((-millis) / 1000) }

  /** When claims made now expire. */
  function IssueExpiry(config: Config, now: int): int { Seconds(now) * 1000 + config.ttl * 1000 }

  function CreateIssuedClaims(config: Config, now: int, jti: TokenId): Claims {
    Claims(Seconds(now) * 1000, IssueExpiry(config, now), jti)
  }

  /** None: the claims do not have the configured lifetime. */
  function Issue(config: Config, guest: GuestId, claims: Claims): Option<Token> {
    var token := Token(guest, Seconds(claims.issuedAt), Seconds(claims.expiresAt), claims.jti);
    if token.exp - token.iat != config.ttl then None else Some(token)
  }

  /** The time and lifetime checks of a token whose signature holds. */
  predicate Accepts(config: Config, token: Token, now: int) {
    && token.exp - token.iat == config.ttl
    && token.iat <= Seconds(now) + config.skew
    && Seconds(now) < token.exp + config.skew
  }

  /** Claims just created always issue, expire a whole lifetime later, and verify at once. */
  lemma IssuedClaimsVerify(config: Config, guest: GuestId, now: int, jti: TokenId)
    requires config.Valid()
    ensures var claims := CreateIssuedClaims(config, now, jti);
            var token := Issue(config, guest, claims);
            && token.Some? && token.value.ExpiresAt() == claims.expiresAt
            && Accepts(config, token.value, now)
            && forall t :: now <= t ==> (Accepts(config, token.value, t) <==> t < claims.expiresAt + config.skew * 1000)
  {
    var claims := CreateIssuedClaims(config, now, jti);
    var token := Issue(config, guest, claims).value;
    forall t | now <= t
      ensures Accepts(config, token, t) <==> t < claims.expiresAt + config.skew * 1000
    {
      assert Seconds(now) <= Seconds(t);
    }
  }

  // ----- revocation keys -----

  function TtlSeconds(config: Config, expiryMs: int, now: int): int {
    Max(1, CeilSeconds(expiryMs - now) + config.skew)
  }

  /** When a key set now for this expiry disappears. */
  function KeyExpiry(config: Config, expiryMs: int, now: int): int {
    now + TtlSeconds(config, expiryMs, now) * 1000
  }

  /** A revocation key outlives everything accepted up to the expiry it was set for. */
  lemma KeyCovers(config: Config, expiryMs: int, now: int)
    ensures KeyExpiry(config, expiryMs, now) >= expiryMs + config.skew * 1000
    ensures KeyExpiry(config, expiryMs, now) > now
    ensures CeilSeconds(expiryMs - now) + config.skew >= 1 ==>
              KeyExpiry(config, expiryMs, now) < expiryMs + config.skew * 1000 + 1000
  {
  }

  /** While a key lives no token up to an expiry is accepted without being seen as revoked. */
  ghost predicate Denied(config: Config, token: Token, keyExpiry: int, from: int) {
    forall t :: from <= t && Accepts(config, token, t) ==> t < keyExpiry
  }

  /** A key set while its expiry is still ahead denies a token, at every later instant at which
      the token verifies, exactly when the token expires no later than that expiry. */
  lemma DeniedExactly(config: Config, token: Token, expiryMs: int, now: int)
    requires config.Valid() && token.exp - token.iat == config.ttl
    requires expiryMs % 1000 == 0 && now < expiryMs && token.iat <= Seconds(now) + config.skew
    ensures Denied(config, token, KeyExpiry(config, expiryMs, now), now) <==> token.ExpiresAt() <= expiryMs
  {
    var gone := KeyExpiry(config, expiryMs, now);
    KeyCovers(config, expiryMs, now);
    if token.ExpiresAt() > expiryMs {
      assert token.exp * 1000 >= expiryMs + 1000;
      assert Seconds(now) <= Seconds(gone);
      assert Accepts(config, token, gone);
    } else {
      CoveredTokenIsDenied(config, token, gone, now);
    }
  }

  lemma CoveredTokenIsDenied(config: Config, token: Token, keyExpiry: int, from: int)
    requires keyExpiry >= token.ExpiresAt() + config.skew * 1000
    ensures Denied(config, token, keyExpiry, from)
  {
    forall t | from <= t && Accepts(config, token, t)
      ensures t < keyExpiry
    {
      assert t < (Seconds(t) + 1) * 1000;
    }
  }

  // ----- the store of sessions, commands and keys -----

  datatype State = State(
    rows: map<GuestId, Session>,
    commands: map<CommandKey, SessionCommand>,
    revoked: map<GuestId, int>,
    denied: map<TokenId, int>,
    issued: set<Token>)

  const Empty: State := State(map[], map[], map[], map[], {})

  datatype Outcome =
    | IssuedToken(token: Token, replayed: bool)
    | ResetDone(row: Session)
    | Unavailable
    | KeyReused
    | DatabaseFailed

  /** The answer to create or renew: the stored token for a replayed key, or a new one. */
  function Replay(config: Config, s: State, key: CommandKey, guest: Option<GuestId>): Outcome
    requires key in s.commands
  {
    var command := s.commands[key];
    var kindMatches :=
      if guest.Some? then command.RenewCommand? && command.guest == guest.value else command.CreateCommand?;
    if !kindMatches then KeyReused
    else
      match Issue(config, command.guest, command.claims)
      case None => Unavailable
      case Some(token) => IssuedToken(token, true)
  }

  function CreateAnswer(config: Config, s: State, key: CommandKey, guest: GuestId, now: int, jti: TokenId): Outcome {
    if key in s.commands then Replay(config, s, key, None)
    else if guest in s.rows then DatabaseFailed
    else
      match Issue(config, guest, CreateIssuedClaims(config, now, jti))
      case None => Unavailable
      case Some(token) => IssuedToken(token, false)
  }

  function RenewAnswer(config: Config, s: State, key: CommandKey, guest: GuestId, now: int, jti: TokenId): Outcome {
    var claims := CreateIssuedClaims(config, now, jti);
    if key in s.commands then Replay(config, s, key, Some(guest))
    else if guest !in s.rows || s.rows[guest].revokedAt.Some? then Unavailable
    else if s.rows[guest].expiresAt <= claims.issuedAt then Unavailable
    else
      match Issue(config, guest, claims)
      case None => Unavailable
      case Some(token) => IssuedToken(token, false)
  }

  function ResetAnswer(s: State, key: CommandKey, guest: GuestId, tokenWasRevoked: bool, now: int): Outcome {
    if key in s.commands then
      if s.commands[key].ResetCommand? && s.commands[key].guest == guest && guest in s.rows
      then ResetDone(s.rows[guest]) else KeyReused
    else if tokenWasRevoked || guest !in s.rows || s.rows[guest].revokedAt.Some? || s.rows[guest].expiresAt <= now then
      Unavailable
    else if now < s.rows[guest].issuedAt then DatabaseFailed
    else ResetDone(s.rows[guest].(revokedAt := Some(now)))
  }

  /** The new claims written to the session row and recorded under the command's key. */
  function Grant(
    s: State, key: CommandKey, guest: GuestId, command: SessionCommand, claims: Claims, token: Token): State
  {
    s.(rows := s.rows[guest := Session(claims.issuedAt, claims.expiresAt, None)],
       commands := s.commands[key := command],
       issued := s.issued + {token})
  }

  function Create(config: Config, s: State, key: CommandKey, guest: GuestId, now: int, jti: TokenId): State {
    var answer := CreateAnswer(config, s, key, guest, now, jti);
    var claims := CreateIssuedClaims(config, now, jti);
    if !answer.IssuedToken? then s
    else if answer.replayed then s.(issued := s.issued + {answer.token})
    else Grant(s, key, guest, CreateCommand(guest, claims), claims, answer.token)
  }

  function Renew(config: Config, s: State, key: CommandKey, guest: GuestId, now: int, jti: TokenId): State {
    var answer := RenewAnswer(config, s, key, guest, now, jti);
    var claims := CreateIssuedClaims(config, now, jti);
    if !answer.IssuedToken? then s
    else if answer.replayed then s.(issued := s.issued + {answer.token})
    else Grant(s, key, guest, RenewCommand(guest, claims), claims, answer.token)
  }

  function Reset(s: State, key: CommandKey, guest: GuestId, tokenWasRevoked: bool, now: int): State {
    var answer := ResetAnswer(s, key, guest, tokenWasRevoked, now);
    if answer.ResetDone? && key !in s.commands
    then s.(rows := s.rows[guest := answer.row], commands := s.commands[key := ResetCommand(guest)])
    else s
  }

  /** The keys as revoke sets them: the session's for the later of the row's and the identity's
      expiry, the identity's own for its expiry. */
  function Revoke(config: Config, s: State, guest: GuestId, row: Session, identity: Token, now: int): State {
    s.(revoked := s.revoked[guest := KeyExpiry(config, Max(row.expiresAt, identity.ExpiresAt()), now)],
       denied := s.denied[identity.jti := KeyExpiry(config, identity.ExpiresAt(), now)])
  }

  /** What a request is asked: the session's key or the token's own is still there. */
  predicate SeenRevoked(s: State, identity: Token, now: int) {
    || (identity.guest in s.revoked && now < s.revoked[identity.guest])
    || (identity.jti in s.denied && now < s.denied[identity.jti])
  }

  /** The session key as maintenance restores it, for revoked rows not yet expired. */
  function Restore(config: Config, s: State, guest: GuestId, now: int): State {
    if guest in s.rows && s.rows[guest].revokedAt.Some? && s.rows[guest].expiresAt > now
    then s.(revoked := s.revoked[guest := KeyExpiry(config, s.rows[guest].expiresAt, now)])
    else s
  }

  // ----- the service object -----

  class Service {
    const config: Config
    var rows: map<GuestId, Session>
    var commands: map<CommandKey, SessionCommand>
    var revoked: map<GuestId, int>
    var deniedTokens: map<TokenId, int>
    ghost var issued: set<Token>

    ghost function View(): State
      reads this
    {
      State(rows, commands, revoked, deniedTokens, issued)
    }

    constructor (config: Config)
      ensures this.config == config && View() == Empty
    {
      this.config := config;
      rows, commands, revoked, deniedTokens, issued := map[], map[], map[], map[], {};
    }

    method CreateSession(key: CommandKey, guest: GuestId, now: int, jti: TokenId) returns (answer: Outcome)
      modifies this
      ensures View() == Create(config, old(View()), key, guest, now, jti)
      ensures answer == CreateAnswer(config, old(View()), key, guest, now, jti)
    {
      if key in commands {
        var command := commands[key];
        if !command.CreateCommand? {
          return KeyReused;
        }
        answer := TokenFor(command.guest, command.claims, true);
        return;
      }
      if guest in rows {
        return DatabaseFailed;
      }
      var claims := CreateIssuedClaims(config, now, jti);
      answer := TokenFor(guest, claims, false);
      if answer.IssuedToken? {
        rows := rows[guest := Session(claims.issuedAt, claims.expiresAt, None)];
        commands := commands[key := CreateCommand(guest, claims)];
      }
    }

    method RenewSession(key: CommandKey, guest: GuestId, now: int, jti: TokenId) returns (answer: Outcome)
      modifies this
      ensures View() == Renew(config, old(View()), key, guest, now, jti)
      ensures answer == RenewAnswer(config, old(View()), key, guest, now, jti)
    {
      if key in commands {
        var command := commands[key];
        if !command.RenewCommand? || command.guest != guest {
          return KeyReused;
        }
        answer := TokenFor(guest, command.claims, true);
        return;
      }
      var claims := CreateIssuedClaims(config, now, jti);
      if guest !in rows || rows[guest].revokedAt.Some? || rows[guest].expiresAt <= claims.issuedAt {
        return Unavailable;
      }
      answer := TokenFor(guest, claims, false);
      if answer.IssuedToken? {
        rows := rows[guest := rows[guest].(issuedAt := claims.issuedAt, expiresAt := claims.expiresAt)];
        commands := commands[key := RenewCommand(guest, claims)];
      }
    }

    method TokenFor(guest: GuestId, claims: Claims, replayed: bool) returns (answer: Outcome)
      modifies this`issued
      ensures answer == match Issue(config, guest, claims)
                        case None => Unavailable
                        case Some(token) => IssuedToken(token, replayed)
      ensures issued == if answer.IssuedToken? then old(issued) + {answer.token} else old(issued)
    {
      var token := Issue(config, guest, claims);
      if token.None? {
        return Unavailable;
      }
      issued := issued + {token.value};
      return IssuedToken(token.value, replayed);
    }

    method ResetSession(key: CommandKey, guest: GuestId, tokenWasRevoked: bool, now: int) returns (answer: Outcome)
      modifies this
      ensures View() == Reset(old(View()), key, guest, tokenWasRevoked, now)
      ensures answer == ResetAnswer(old(View()), key, guest, tokenWasRevoked, now)
    {
      if key in commands {
        var command := commands[key];
        if !command.ResetCommand? || command.guest != guest || guest !in rows {
          return KeyReused;
        }
        return ResetDone(rows[guest]);
      }
      if tokenWasRevoked || guest !in rows || rows[guest].revokedAt.Some? || rows[guest].expiresAt <= now {
        return Unavailable;
      }
      if now < rows[guest].issuedAt {
        return DatabaseFailed;
      }
      rows := rows[guest := rows[guest].(revokedAt := Some(now))];
      commands := commands[key := ResetCommand(guest)];
      return ResetDone(rows[guest]);
    }

    method RevokeSession(guest: GuestId, row: Session, identity: Token, now: int)
      modifies this`revoked, this`deniedTokens
      ensures View() == Revoke(config, old(View()), guest, row, identity, now)
    {
      var latest := Max(row.expiresAt, identity.ExpiresAt());
      var sessionTtl := TtlSeconds(config, latest, now);
      var tokenTtl := TtlSeconds(config, identity.ExpiresAt(), now);
      revoked := revoked[guest := now + sessionTtl * 1000];
      deniedTokens := deniedTokens[identity.jti := now + tokenTtl * 1000];
    }

    method RestoreRevocation(guest: GuestId, now: int)
      modifies this`revoked
      ensures View() == Restore(config, old(View()), guest, now)
    {
      if guest in rows && rows[guest].revokedAt.Some? && rows[guest].expiresAt > now {
        revoked := revoked[guest := now + TtlSeconds(config, rows[guest].expiresAt, now) * 1000];
      }
    }

    method IsRevoked(identity: Token, now: int) returns (denied: bool)
      ensures denied <==> SeenRevoked(View(), identity, now)
    {
      var sessionRevoked := identity.guest in revoked && now < revoked[identity.guest];
      var tokenRevoked := identity.jti in deniedTokens && now < deniedTokens[identity.jti];
      denied := sessionRevoked || tokenRevoked;
    }
  }

  // ----- runs -----

  datatype Event =
    | CreateEvent(key: CommandKey, guest: GuestId, at: int, jti: TokenId)
    | RenewEvent(key: CommandKey, guest: GuestId, at: int, jti: TokenId)
    | ResetEvent(key: CommandKey, guest: GuestId, tokenWasRevoked: bool, at: int)
    | RevokeEvent(guest: GuestId, identity: Token, at: int)
    | RestoreEvent(guest: GuestId, at: int)

  /** Revocation follows a committed reset, with the row that reset returned. */
  predicate MayRevoke(s: State, guest: GuestId) { guest in s.rows && s.rows[guest].revokedAt.Some? }

  /** No token has this identifier yet. */
  predicate Unused(s: State, jti: TokenId) { forall u :: u in s.issued ==> u.jti != jti }

  /** One call.  Identifiers are drawn at random and never repeat, so an issuance that would
      repeat one is no step; and a revocation presents a token that was issued. */
  function Step(config: Config, s: State, e: Event): State {
    match e
    case CreateEvent(key, guest, at, jti) => if Unused(s, jti) then Create(config, s, key, guest, at, jti) else s
    case RenewEvent(key, guest, at, jti) => if Unused(s, jti) then Renew(config, s, key, guest, at, jti) else s
    case ResetEvent(key, guest, tokenWasRevoked, at) => Reset(s, key, guest, tokenWasRevoked, at)
    case RevokeEvent(guest, identity, at) =>
      if MayRevoke(s, guest) && identity in s.issued then Revoke(config, s, guest, s.rows[guest], identity, at) else s
    case RestoreEvent(guest, at) => Restore(config, s, guest, at)
  }

  function Run(config: Config, events: seq<Event>): State {
    if events == [] then Empty else Step(config, Run(config, events[..|events| - 1]), events[|events| - 1])
  }

  predicate Issues(e: Event) { e.CreateEvent? || e.RenewEvent? }

  /** When claims were last made for each guest. */
  function LastIssue(events: seq<Event>): map<GuestId, int> {
    if events == [] then map[]
    else
      var before, e := LastIssue(events[..|events| - 1]), events[|events| - 1];
      if Issues(e) then before[e.guest := e.at] else before
  }

  predicate NotBefore(last: map<GuestId, int>, e: Event) {
    Issues(e) && e.guest in last ==> Seconds(last[e.guest]) <= Seconds(e.at)
  }

  /** For each guest, issuance times in whole seconds do not go back in the order in which they commit. */
  predicate IssuesInOrder(events: seq<Event>) {
    events == []
    || (IssuesInOrder(events[..|events| - 1]) && NotBefore(LastIssue(events[..|events| - 1]), events[|events| - 1]))
  }

  /** No token of a guest, issued or recorded for replay, outlives the guest's session row. */
  predicate TokensWithin(config: Config, s: State) {
    && (forall t :: t in s.issued ==>
          t.guest in s.rows && t.ExpiresAt() <= s.rows[t.guest].expiresAt && t.exp - t.iat == config.ttl)
    && (forall k :: k in s.commands && !s.commands[k].ResetCommand? ==>
          && s.commands[k].guest in s.rows
          && s.commands[k].claims.expiresAt <= s.rows[s.commands[k].guest].expiresAt)
    && (forall g :: g in s.rows ==> s.rows[g].expiresAt % 1000 == 0)
  }

  /** Every revocation key belongs to a revoked row and outlives its expiry by the skew. */
  predicate KeysCover(config: Config, s: State) {
    forall g :: g in s.revoked ==>
      MayRevoke(s, g) && s.revoked[g] >= s.rows[g].expiresAt + config.skew * 1000
  }

  /** No row expires later than a token issued at its guest's last issuance would. */
  predicate RowsBefore(config: Config, s: State, last: map<GuestId, int>) {
    forall g :: g in s.rows ==> g in last && s.rows[g].expiresAt <= IssueExpiry(config, last[g])
  }

  lemma LaterIssuesExpireLater(config: Config, now: int, later: int)
    requires Seconds(now) <= Seconds(later)
    ensures IssueExpiry(config, now) <= IssueExpiry(config, later)
  {
  }

  predicate Consistent(config: Config, s: State) { TokensWithin(config, s) && KeysCover(config, s) }

  /** Granting claims no earlier than the row's keeps everything within the row. */
  lemma GrantKeeps(
    config: Config, s: State, key: CommandKey, guest: GuestId, command: SessionCommand, claims: Claims, token: Token)
    requires Consistent(config, s) && key !in s.commands
    requires guest in s.rows ==> s.rows[guest].revokedAt.None? && s.rows[guest].expiresAt <= claims.expiresAt
    requires !command.ResetCommand? && command.guest == guest && command.claims == claims
    requires token.guest == guest && token.ExpiresAt() == claims.expiresAt && token.exp - token.iat == config.ttl
    requires claims.expiresAt % 1000 == 0
    ensures Consistent(config, Grant(s, key, guest, command, claims, token))
  {
  }

  /** A replayed command issues its recorded claims again, which are within the row. */
  lemma ReplayKeeps(config: Config, s: State, key: CommandKey, token: Token)
    requires Consistent(config, s) && key in s.commands && !s.commands[key].ResetCommand?
    requires Issue(config, s.commands[key].guest, s.commands[key].claims) == Some(token)
    ensures Consistent(config, s.(issued := s.issued + {token}))
  {
    assert token.ExpiresAt() <= s.commands[key].claims.expiresAt;
  }

  lemma CreateStep(config: Config, s: State, key: CommandKey, guest: GuestId, now: int, jti: TokenId)
    requires config.Valid() && Consistent(config, s)
    requires guest in s.rows ==> s.rows[guest].expiresAt <= IssueExpiry(config, now)
    ensures Consistent(config, Create(config, s, key, guest, now, jti))
  {
    var answer := CreateAnswer(config, s, key, guest, now, jti);
    var claims := CreateIssuedClaims(config, now, jti);
    if answer.IssuedToken? {
      if answer.replayed {
        ReplayKeeps(config, s, key, answer.token);
      } else {
        IssuedClaimsVerify(config, guest, now, jti);
        GrantKeeps(config, s, key, guest, CreateCommand(guest, claims), claims, answer.token);
      }
    }
  }

  lemma RenewStep(config: Config, s: State, key: CommandKey, guest: GuestId, now: int, jti: TokenId)
    requires config.Valid() && Consistent(config, s)
    requires guest in s.rows ==> s.rows[guest].expiresAt <= IssueExpiry(config, now)
    ensures Consistent(config, Renew(config, s, key, guest, now, jti))
  {
    var answer := RenewAnswer(config, s, key, guest, now, jti);
    var claims := CreateIssuedClaims(config, now, jti);
    if answer.IssuedToken? {
      if answer.replayed {
        ReplayKeeps(config, s, key, answer.token);
      } else {
        IssuedClaimsVerify(config, guest, now, jti);
        GrantKeeps(config, s, key, guest, RenewCommand(guest, claims), claims, answer.token);
      }
    }
  }

  /** An issuance gives at most its own guest a new row, with the expiry of its claims. */
  lemma IssueRows(config: Config, s: State, e: Event)
    requires Issues(e)
    ensures forall g :: g in Step(config, s, e).rows ==>
              || (g in s.rows && Step(config, s, e).rows[g] == s.rows[g])
              || (g == e.guest && Step(config, s, e).rows[g].expiresAt == IssueExpiry(config, e.at))
  {
  }

  lemma RowsAdvance(config: Config, s: State, after: State, last: map<GuestId, int>, guest: GuestId, at: int)
    requires RowsBefore(config, s, last) && (guest in last ==> Seconds(last[guest]) <= Seconds(at))
    requires forall g :: g in after.rows ==>
               || (g in s.rows && after.rows[g] == s.rows[g])
               || (g == guest && after.rows[g].expiresAt == IssueExpiry(config, at))
    ensures RowsBefore(config, after, last[guest := at])
  {
    if guest in last {
      LaterIssuesExpireLater(config, last[guest], at);
    }
  }

  lemma IssueStep(config: Config, s: State, e: Event, last: map<GuestId, int>)
    requires config.Valid() && Consistent(config, s) && RowsBefore(config, s, last)
    requires Issues(e) && NotBefore(last, e)
    ensures Consistent(config, Step(config, s, e)) && RowsBefore(config, Step(config, s, e), last[e.guest := e.at])
  {
    if e.guest in last {
      LaterIssuesExpireLater(config, last[e.guest], e.at);
    }
    if Unused(s, e.jti) {
      if e.CreateEvent? {
        CreateStep(config, s, e.key, e.guest, e.at, e.jti);
      } else {
        RenewStep(config, s, e.key, e.guest, e.at, e.jti);
      }
    }
    IssueRows(config, s, e);
    RowsAdvance(config, s, Step(config, s, e), last, e.guest, e.at);
  }

  predicate SameExpiries(s: State, after: State) {
    forall g :: g in after.rows ==> g in s.rows && after.rows[g].expiresAt == s.rows[g].expiresAt
  }

  lemma ResetStep(config: Config, s: State, key: CommandKey, guest: GuestId, tokenWasRevoked: bool, now: int)
    requires Consistent(config, s)
    ensures var after := Reset(s, key, guest, tokenWasRevoked, now);
            Consistent(config, after) && SameExpiries(s, after)
  {
  }

  lemma KeyStep(config: Config, s: State, guest: GuestId, expiry: int)
    requires Consistent(config, s) && MayRevoke(s, guest)
    requires expiry >= s.rows[guest].expiresAt + config.skew * 1000
    ensures Consistent(config, s.(revoked := s.revoked[guest := expiry]))
  {
  }

  lemma OtherStep(config: Config, s: State, e: Event)
    requires Consistent(config, s) && !Issues(e)
    ensures Consistent(config, Step(config, s, e)) && SameExpiries(s, Step(config, s, e))
  {
    match e
    case ResetEvent(key, guest, tokenWasRevoked, at) => ResetStep(config, s, key, guest, tokenWasRevoked, at);
    case RevokeEvent(guest, identity, at) =>
      if MayRevoke(s, guest) {
        var latest := Max(s.rows[guest].expiresAt, identity.ExpiresAt());
        KeyCovers(config, latest, at);
        KeyStep(config, s, guest, KeyExpiry(config, latest, at));
      }
    case RestoreEvent(guest, at) =>
      if MayRevoke(s, guest) {
        KeyCovers(config, s.rows[guest].expiresAt, at);
        KeyStep(config, s, guest, KeyExpiry(config, s.rows[guest].expiresAt, at));
      }
  }

  lemma {:induction false} RunCovers(config: Config, events: seq<Event>)
    requires config.Valid() && IssuesInOrder(events)
    ensures Consistent(config, Run(config, events)) && RowsBefore(config, Run(config, events), LastIssue(events))
  {
    if events != [] {
      var front, e := events[..|events| - 1], events[|events| - 1];
      RunCovers(config, front);
      if Issues(e) {
        IssueStep(config, Run(config, front), e, LastIssue(front));
      } else {
        OtherStep(config, Run(config, front), e);
      }
    }
  }

  /** A revoked session is final: no later call gives it a token that expires later, or a new expiry. */
  lemma {:induction false} RevokedIsFinal(config: Config, s: State, guest: GuestId, events: seq<Event>)
    requires MayRevoke(s, guest)
    ensures var after := RunFrom(config, s, events);
            MayRevoke(after, guest) && after.rows[guest] == s.rows[guest]
  {
    if events != [] {
      RevokedIsFinal(config, s, guest, events[..|events| - 1]);
    }
  }

  function RunFrom(config: Config, s: State, events: seq<Event>): State {
    if events == [] then s else Step(config, RunFrom(config, s, events[..|events| - 1]), events[|events| - 1])
  }

  // ----- exactly which tokens revocation covers, in any order of issuance -----

  /** What holds however issuance times run: keys outlive what they were set for, every row
      expires at a whole second, every issued token has the configured lifetime. */
  predicate Covered(config: Config, s: State) {
    && KeysCover(config, s)
    && DenialsCover(config, s)
    && Distinct(config, s)
    && (forall g :: g in s.rows ==> s.rows[g].expiresAt % 1000 == 0)
    && (forall u :: u in s.issued ==> u.exp - u.iat == config.ttl)
  }

  /** A denied identifier belongs to an issued token, and the denial outlives that token. */
  predicate DenialsCover(config: Config, s: State) {
    && (forall jti :: jti in s.denied ==> !Unused(s, jti))
    && (forall u :: u in s.issued && u.jti in s.denied ==> s.denied[u.jti] >= u.ExpiresAt() + config.skew * 1000)
  }

  /** An identifier names one token, and replaying a command issues a token already issued. */
  predicate Distinct(config: Config, s: State) {
    && (forall t, u :: t in s.issued && u in s.issued && t.jti == u.jti ==> t == u)
    && (forall k :: k in s.commands && !s.commands[k].ResetCommand? ==>
          var token := Issue(config, s.commands[k].guest, s.commands[k].claims);
          token.Some? ==> token.value in s.issued)
  }

  /** Keys, once set, stay set. */
  predicate KeysStay(s: State, after: State) {
    && (forall g :: g in s.revoked ==> g in after.revoked)
    && (forall jti :: jti in s.denied ==> jti in after.denied)
  }

  /** A newly granted token is under an identifier that nothing denies yet. */
  lemma GrantStaysCovered(
    config: Config, s: State, key: CommandKey, guest: GuestId, command: SessionCommand, now: int, token: Token)
    requires Covered(config, s) && Unused(s, token.jti) && !command.ResetCommand? && command.guest == guest
    requires guest in s.rows ==> s.rows[guest].revokedAt.None?
    requires command.claims == CreateIssuedClaims(config, now, token.jti)
    requires Issue(config, guest, command.claims) == Some(token)
    ensures var after := Grant(s, key, guest, command, command.claims, token);
            Covered(config, after) && KeysStay(s, after)
  {
    var after := Grant(s, key, guest, command, command.claims, token);
    assert forall jti :: jti in after.denied ==> !Unused(s, jti);
    assert forall u :: u in after.issued ==> u in s.issued || u == token;
  }

  lemma CreateStaysCovered(config: Config, s: State, key: CommandKey, guest: GuestId, now: int, jti: TokenId)
    requires Covered(config, s) && Unused(s, jti)
    ensures var after := Create(config, s, key, guest, now, jti);
            Covered(config, after) && KeysStay(s, after)
  {
    var answer := CreateAnswer(config, s, key, guest, now, jti);
    if answer.IssuedToken? {
      if answer.replayed {
        assert s.issued + {answer.token} == s.issued;
      } else {
        var command := CreateCommand(guest, CreateIssuedClaims(config, now, jti));
        GrantStaysCovered(config, s, key, guest, command, now, answer.token);
      }
    }
  }

  lemma RenewStaysCovered(config: Config, s: State, key: CommandKey, guest: GuestId, now: int, jti: TokenId)
    requires Covered(config, s) && Unused(s, jti)
    ensures var after := Renew(config, s, key, guest, now, jti);
            Covered(config, after) && KeysStay(s, after)
  {
    var answer := RenewAnswer(config, s, key, guest, now, jti);
    if answer.IssuedToken? {
      if answer.replayed {
        assert s.issued + {answer.token} == s.issued;
      } else {
        var command := RenewCommand(guest, CreateIssuedClaims(config, now, jti));
        GrantStaysCovered(config, s, key, guest, command, now, answer.token);
      }
    }
  }

  lemma RevokeStaysCovered(config: Config, s: State, guest: GuestId, identity: Token, now: int)
    requires Covered(config, s) && MayRevoke(s, guest) && identity in s.issued
    ensures var after := Revoke(config, s, guest, s.rows[guest], identity, now);
            Covered(config, after) && KeysStay(s, after)
  {
    KeyCovers(config, Max(s.rows[guest].expiresAt, identity.ExpiresAt()), now);
    KeyCovers(config, identity.ExpiresAt(), now);
    var after := Revoke(config, s, guest, s.rows[guest], identity, now);
    assert forall jti :: Unused(after, jti) <==> Unused(s, jti);
  }

  lemma ResetStaysCovered(config: Config, s: State, key: CommandKey, guest: GuestId, tokenWasRevoked: bool, now: int)
    requires Covered(config, s)
    ensures var after := Reset(s, key, guest, tokenWasRevoked, now);
            Covered(config, after) && KeysStay(s, after)
  {
    var after := Reset(s, key, guest, tokenWasRevoked, now);
    assert forall jti :: Unused(after, jti) <==> Unused(s, jti);
  }

  lemma RestoreStaysCovered(config: Config, s: State, guest: GuestId, now: int)
    requires Covered(config, s)
    ensures Covered(config, Restore(config, s, guest, now)) && KeysStay(s, Restore(config, s, guest, now))
  {
    if MayRevoke(s, guest) {
      KeyCovers(config, s.rows[guest].expiresAt, now);
    }
    assert forall jti :: Unused(Restore(config, s, guest, now), jti) <==> Unused(s, jti);
  }

  lemma StaysCovered(config: Config, s: State, e: Event)
    requires Covered(config, s)
    ensures Covered(config, Step(config, s, e)) && KeysStay(s, Step(config, s, e))
  {
    match e
    case CreateEvent(key, guest, at, jti) =>
      if Unused(s, jti) {
        CreateStaysCovered(config, s, key, guest, at, jti);
      }
    case RenewEvent(key, guest, at, jti) =>
      if Unused(s, jti) {
        RenewStaysCovered(config, s, key, guest, at, jti);
      }
    case ResetEvent(key, guest, tokenWasRevoked, at) => ResetStaysCovered(config, s, key, guest, tokenWasRevoked, at);
    case RevokeEvent(guest, identity, at) =>
      if MayRevoke(s, guest) && identity in s.issued {
        RevokeStaysCovered(config, s, guest, identity, at);
      }
    case RestoreEvent(guest, at) => RestoreStaysCovered(config, s, guest, at);
  }

  lemma {:induction false} ContinuationsStayCovered(config: Config, s: State, more: seq<Event>)
    requires Covered(config, s)
    ensures Covered(config, RunFrom(config, s, more)) && KeysStay(s, RunFrom(config, s, more))
  {
    if more != [] {
      ContinuationsStayCovered(config, s, more[..|more| - 1]);
      StaysCovered(config, RunFrom(config, s, more[..|more| - 1]), more[|more| - 1]);
    }
  }

  lemma {:induction false} RunIsCovered(config: Config, events: seq<Event>)
    ensures Covered(config, Run(config, events))
  {
    if events != [] {
      RunIsCovered(config, events[..|events| - 1]);
      StaysCovered(config, Run(config, events[..|events| - 1]), events[|events| - 1]);
    }
  }

  /** However things go on, while the token verifies its session's key, if set, is there. */
  ghost predicate KeyOutlives(config: Config, s: State, token: Token) {
    forall more, t :: KeyThere(config, RunFrom(config, s, more), token, t)
  }

  predicate KeyThere(config: Config, after: State, token: Token, t: int) {
    token.guest in after.revoked && Accepts(config, token, t) ==> t < after.revoked[token.guest]
  }

  /** However things go on, while the token verifies it is seen as revoked. */
  ghost predicate StaysRevoked(config: Config, s: State, token: Token) {
    forall more, t :: TurnedAway(config, RunFrom(config, s, more), token, t)
  }

  predicate TurnedAway(config: Config, after: State, token: Token, t: int) {
    Accepts(config, token, t) ==> SeenRevoked(after, token, t)
  }

  /** A token that expires after its row verifies once the key maintenance sets has gone. */
  lemma UncoveredTokenVerifies(config: Config, s: State, token: Token) returns (restore: Event, t: int)
    requires config.Valid() && MayRevoke(s, token.guest) && token.exp - token.iat == config.ttl
    requires token.ExpiresAt() > s.rows[token.guest].expiresAt
    ensures var after := RunFrom(config, s, [restore]);
            && Accepts(config, token, t)
            && token.guest in after.revoked && after.revoked[token.guest] <= t && after.denied == s.denied
  {
    var expiresAt := s.rows[token.guest].expiresAt;
    restore := RestoreEvent(token.guest, expiresAt - 1000);
    t := Max(expiresAt + config.skew * 1000, (token.iat - config.skew) * 1000);
    assert [restore][..0] == [];
    assert RunFrom(config, s, [restore]) == Restore(config, s, token.guest, expiresAt - 1000);
  }

  /** The exact condition, over every run and every continuation, with no assumption on the
      order of issuance: the key of a revoked session outlives a token of it, restores and
      repeated revokes included, exactly when the token expires no later than the row.  The
      instants of a continuation are arbitrary here, as clocks of several servers may be;
      RevocationCoversInTimeOrder says the same for continuations in time order. */
  lemma RevocationCoversExactly(config: Config, events: seq<Event>, token: Token)
    requires config.Valid()
    requires var s := Run(config, events); token in s.issued && MayRevoke(s, token.guest)
    ensures var s := Run(config, events);
            KeyOutlives(config, s, token) <==> token.ExpiresAt() <= s.rows[token.guest].expiresAt
  {
    var s := Run(config, events);
    RunIsCovered(config, events);
    if token.ExpiresAt() <= s.rows[token.guest].expiresAt {
      forall more, t
        ensures KeyThere(config, RunFrom(config, s, more), token, t)
      {
        CoveredKeyIsThere(config, s, token, more, t);
      }
    } else {
      var restore, t := UncoveredTokenVerifies(config, s, token);
      assert !KeyThere(config, RunFrom(config, s, [restore]), token, t);
    }
  }

  lemma CoveredKeyIsThere(config: Config, s: State, token: Token, more: seq<Event>, t: int)
    requires Covered(config, s) && MayRevoke(s, token.guest) && token.ExpiresAt() <= s.rows[token.guest].expiresAt
    ensures KeyThere(config, RunFrom(config, s, more), token, t)
  {
    var after := RunFrom(config, s, more);
    RevokedIsFinal(config, s, token.guest, more);
    ContinuationsStayCovered(config, s, more);
    if token.guest in after.revoked {
      CoveredTokenIsDenied(config, token, after.revoked[token.guest], t);
    }
  }

  /** Everything happens from `now` on, in the order of its instants, and t is no earlier. */
  predicate InTimeOrder(now: int, more: seq<Event>, t: int) {
    && now <= t && (forall i :: 0 <= i < |more| ==> now <= more[i].at <= t)
    && (forall i, j :: 0 <= i < j < |more| ==> more[i].at <= more[j].at)
  }

  /** However things go on from `now` in time order, while the token verifies its session's key,
      if set, is there. */
  ghost predicate KeyOutlivesFrom(config: Config, s: State, token: Token, now: int) {
    forall more, t :: InTimeOrder(now, more, t) ==> KeyThere(config, RunFrom(config, s, more), token, t)
  }

  /** The exact condition again when whatever follows is in time order, from any instant before
      the row's expiry at which the token has begun to verify: one restore at that instant is
      enough to lose an uncovered token. */
  lemma RevocationCoversInTimeOrder(config: Config, events: seq<Event>, token: Token, now: int)
    requires config.Valid()
    requires var s := Run(config, events);
             && token in s.issued && MayRevoke(s, token.guest)
             && now < s.rows[token.guest].expiresAt && token.iat <= Seconds(now) + config.skew
    ensures var s := Run(config, events);
            KeyOutlivesFrom(config, s, token, now) <==> token.ExpiresAt() <= s.rows[token.guest].expiresAt
  {
    var s := Run(config, events);
    var expiresAt := s.rows[token.guest].expiresAt;
    RunIsCovered(config, events);
    if token.ExpiresAt() <= expiresAt {
      forall more, t
        ensures KeyThere(config, RunFrom(config, s, more), token, t)
      {
        CoveredKeyIsThere(config, s, token, more, t);
      }
    } else {
      DeniedExactly(config, token, expiresAt, now);
      var t :| now <= t && Accepts(config, token, t) && t >= KeyExpiry(config, expiresAt, now);
      var restore := [RestoreEvent(token.guest, now)];
      assert restore[..0] == [];
      assert RunFrom(config, s, restore) == Restore(config, s, token.guest, now);
      assert InTimeOrder(now, restore, t) && !KeyThere(config, RunFrom(config, s, restore), token, t);
    }
  }

  /** The same for what a request is actually asked: once a session's key was set, a token of it
      is turned away for as long as it verifies, however things go on, exactly when it expires
      no later than the row or its own identifier was denied by a revocation. */
  lemma TokenStaysRevokedExactly(config: Config, events: seq<Event>, token: Token)
    requires config.Valid()
    requires var s := Run(config, events); token in s.issued && token.guest in s.revoked
    ensures var s := Run(config, events);
            && MayRevoke(s, token.guest)
            && (StaysRevoked(config, s, token) <==>
                  token.ExpiresAt() <= s.rows[token.guest].expiresAt || token.jti in s.denied)
  {
    var s := Run(config, events);
    RunIsCovered(config, events);
    if token.ExpiresAt() <= s.rows[token.guest].expiresAt || token.jti in s.denied {
      forall more, t
        ensures TurnedAway(config, RunFrom(config, s, more), token, t)
      {
        CoveredTokenIsTurnedAway(config, s, token, more, t);
      }
    } else {
      var restore, t := UncoveredTokenVerifies(config, s, token);
      assert !TurnedAway(config, RunFrom(config, s, [restore]), token, t);
    }
  }

  lemma {:induction false} IssuedStaysIssued(config: Config, s: State, token: Token, more: seq<Event>)
    requires token in s.issued
    ensures token in RunFrom(config, s, more).issued
  {
    if more != [] {
      IssuedStaysIssued(config, s, token, more[..|more| - 1]);
    }
  }

  lemma CoveredTokenIsTurnedAway(config: Config, s: State, token: Token, more: seq<Event>, t: int)
    requires Covered(config, s) && token in s.issued && token.guest in s.revoked
    requires token.ExpiresAt() <= s.rows[token.guest].expiresAt || token.jti in s.denied
    ensures TurnedAway(config, RunFrom(config, s, more), token, t)
  {
    var after := RunFrom(config, s, more);
    ContinuationsStayCovered(config, s, more);
    if token.jti in s.denied {
      IssuedStaysIssued(config, s, token, more);
      CoveredTokenIsDenied(config, token, after.denied[token.jti], t);
    } else {
      CoveredKeyIsThere(config, s, token, more, t);
    }
  }

  /** Revocation outlives every token: when issuance times do not go back, once a session has
      been revoked, however things go on, at every instant at which any token ever issued for
      it still verifies the revocation key is still there. */
  lemma RevocationOutlivesTokens(config: Config, events: seq<Event>, token: Token, more: seq<Event>, t: int)
    requires config.Valid() && IssuesInOrder(events)
    requires var s := Run(config, events); token in s.issued && token.guest in s.revoked
    requires Accepts(config, token, t)
    ensures var after := RunFrom(config, Run(config, events), more);
            token.guest in after.revoked && t < after.revoked[token.guest]
  {
    RunCovers(config, events);
    RevocationCoversExactly(config, events, token);
    RunIsCovered(config, events);
    ContinuationsStayCovered(config, Run(config, events), more);
    assert KeyThere(config, RunFrom(config, Run(config, events), more), token, t);
  }

  /** After the keys were lost, maintenance at `now` denies a revoked session's last token for
      good exactly when the row has not yet expired or the token no longer verifies anyway: in
      the skew between the two it restores nothing and the token verifies again. */
  lemma RestoreCoversExactly(config: Config, s: State, token: Token, now: int)
    requires config.Valid() && MayRevoke(s, token.guest) && token.guest !in s.revoked
    requires token.exp - token.iat == config.ttl && token.iat <= Seconds(now) + config.skew
    requires token.ExpiresAt() == s.rows[token.guest].expiresAt
    ensures var keys := Restore(config, s, token.guest, now).revoked;
            var expiresAt := s.rows[token.guest].expiresAt;
            (forall t :: now <= t && Accepts(config, token, t) ==> token.guest in keys && t < keys[token.guest]) <==>
            now < expiresAt || expiresAt + config.skew * 1000 <= now
  {
    var keys := Restore(config, s, token.guest, now).revoked;
    var expiresAt := s.rows[token.guest].expiresAt;
    if now < expiresAt {
      KeyCovers(config, expiresAt, now);
      CoveredTokenIsDenied(config, token, keys[token.guest], now);
    } else if now < expiresAt + config.skew * 1000 {
      assert Accepts(config, token, now);
    } else {
      forall t | now <= t
        ensures !Accepts(config, token, t)
      {
        assert Seconds(t) >= token.exp + config.skew;
      }
    }
  }

  lemma RunOnce(config: Config, events: seq<Event>, e: Event)
    ensures Run(config, events + [e]) == Step(config, Run(config, events), e)
  {
    assert (events + [e])[..|events|] == events;
  }

  const FastToken: Token := Token(7, 10, 43210, 1)
  const SlowToken: Token := Token(7, 5, 43205, 2)

  /** A session created on a fast clock, renewed five seconds earlier on a slow one, and reset. */
  const SlowRenewal: seq<Event> :=
    [CreateEvent(1, 7, 10000, 1), RenewEvent(2, 7, 5000, 2), ResetEvent(3, 7, false, 11000)]

  lemma AfterSlowRenewal(config: Config)
    requires config == Config(43200, 30)
    ensures var s := Run(config, SlowRenewal);
            && s.rows == map[7 := Session(5000, 43205000, Some(11000))]
            && s.issued == {FastToken, SlowToken} && s.revoked == map[] && s.denied == map[]
  {
    var e1, e2, e3 := SlowRenewal[0], SlowRenewal[1], SlowRenewal[2];
    RunOnce(config, [], e1);
    RunOnce(config, [e1], e2);
    RunOnce(config, [e1, e2], e3);
    assert [] + [e1] == [e1] && [e1] + [e2] == [e1, e2] && [e1, e2] + [e3] == SlowRenewal;
    assert Run(config, [e1]).rows == map[7 := Session(10000, 43210000, None)];
    assert Run(config, [e1, e2]).rows == map[7 := Session(5000, 43205000, None)];
  }

  /** When issuance times do go back the guarantee fails: the token of the fast clock outlives
      the key set from the row the slow one wrote. */
  lemma IssuanceMustNotGoBack(config: Config)
    requires config == Config(43200, 30)
    ensures var s := Run(config, SlowRenewal + [RevokeEvent(7, SlowToken, 11000)]);
            && FastToken in s.issued && 7 in s.revoked && s.revoked[7] == 43235000
            && Accepts(config, FastToken, s.revoked[7]) && !SeenRevoked(s, FastToken, s.revoked[7])
  {
    AfterSlowRenewal(config);
    RunOnce(config, SlowRenewal, RevokeEvent(7, SlowToken, 11000));
  }

  /** And maintenance can undo a revocation that did cover the token: the session's key, set for
      the later expiry of the identity, is set again for the row alone.  The identity's own
      token stays on its list; any other token as late would not. */
  lemma RestoreShortensTheKey(config: Config)
    requires config == Config(43200, 30)
    ensures var revoked := SlowRenewal + [RevokeEvent(7, FastToken, 11000)];
            var s := Run(config, revoked);
            var after := Run(config, revoked + [RestoreEvent(7, 12000)]);
            && 7 in s.revoked && Denied(config, FastToken, s.revoked[7], 11000)
            && 7 in after.revoked && after.revoked[7] == 43235000
            && Accepts(config, FastToken, after.revoked[7])
            && SeenRevoked(after, FastToken, after.revoked[7])
            && !SeenRevoked(after, FastToken.(jti := 0), after.revoked[7])
  {
    var revoked := SlowRenewal + [RevokeEvent(7, FastToken, 11000)];
    AfterSlowRenewal(config);
    RunOnce(config, SlowRenewal, RevokeEvent(7, FastToken, 11000));
    RunOnce(config, revoked, RestoreEvent(7, 12000));
    CoveredTokenIsDenied(config, FastToken, Run(config, revoked).revoked[7], 11000);
  }

  /** After a loss of keys maintenance can come too late: in the skew after the row's expiry it
      restores nothing, and the session's token still verifies. */
  lemma MaintenanceComesTooLate(config: Config)
    requires config == Config(43200, 30)
    ensures var e1, e2, e3 := CreateEvent(1, 7, 10000, 1), ResetEvent(3, 7, false, 11000), RestoreEvent(7, 43215000);
            var s := Run(config, [e1, e2, e3]);
            var token := Token(7, 10, 43210, 1);
            && MayRevoke(s, 7) && token in s.issued
            && Accepts(config, token, 43215000) && !SeenRevoked(s, token, 43215000)
  {
    var e1, e2, e3 := CreateEvent(1, 7, 10000, 1), ResetEvent(3, 7, false, 11000), RestoreEvent(7, 43215000);
    RunOnce(config, [], e1);
    RunOnce(config, [e1], e2);
    RunOnce(config, [e1, e2], e3);
    assert [] + [e1] == [e1] && [e1] + [e2] == [e1, e2] && [e1, e2] + [e3] == [e1, e2, e3];
    assert Run(config, [e1]).rows == map[7 := Session(10000, 43210000, None)];
  }
}
