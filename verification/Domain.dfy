/** Shared vocabulary of the game domain: colours, statuses, outcomes, and the two
    pure tables of the domain layer (terminal outcomes and status transitions). */
module Domain {

  // Identifiers stand for the UUIDs of the tables: only equality and order matter.
  type GuestId = nat
  type GameId = nat
  type MatchId = nat
  type EventId = nat

  datatype Option<+T> = None | Some(value: T)
  {
    function GetOr(default: T): T {
      if Some? then value else default
    }
  }

  datatype Result<+T, +E> = Ok(value: T) | Err(error: E)

  function Max(a: int, b: int): int { if a >= b then a else b }

  datatype Color = White | Black
  {
    function Opposite(): Color {
      if White? then Black else White
    }
  }

  datatype Status =
    | Created
    | WaitingForPlayers
    | Ready
    | InProgress
    | Reconnecting
    | Completed
    | Abandoned
    | Expired
  {
    predicate Terminal() { Completed? || Abandoned? || Expired? }

    predicate Running() { InProgress? || Reconnecting? }
  }

  /** One guest session row: when its current token was issued and expires, and its revocation. */
  datatype Session = Session(issuedAt: int, expiresAt: int, revokedAt: Option<int>)

  datatype GameResult = WhiteWin | BlackWin | Draw | Void

  datatype Termination =
    | Checkmate
    | Stalemate
    | InsufficientMaterial
    | ThreefoldRepetition
    | FiftyMove
    | Resignation
    | Timeout
    | Abandonment
    | DoubleAbandon
    | NoShow
  {
    predicate BoardDraw() {
      Stalemate? || InsufficientMaterial? || ThreefoldRepetition? || FiftyMove?
    }
  }

  datatype DomainError = IllegalTransition | InvalidClock | InvalidGameState | InvalidTerminalEvent

  // ----- terminal outcomes -----

  datatype TerminalOutcome = TerminalOutcome(
    result: GameResult,
    status: Status,
    termination: Termination,
    winner: Option<Color>)

  datatype TerminalEvent =
    | BoardEvent(reason: Termination, winner: Option<Color>)
    | ResignationEvent(loser: Color)
    | TimeoutEvent(loser: Color)
    | AbandonmentEvent(absent: seq<Color>)
    | NoShowEvent(joined: seq<Color>)

  /** Duplicates removed, first occurrence kept. */
  function UniqueColors(colors: seq<Color>): seq<Color> {
    if colors == [] then []
    else
      var front := UniqueColors(colors[..|colors| - 1]);
      var last := colors[|colors| - 1];
      if last in front then front else front + [last]
  }

  /** Each colour given is kept, once. */
  lemma {:induction false} UniqueIsExact(colors: seq<Color>)
    ensures forall c :: c in UniqueColors(colors) <==> c in colors
    ensures forall i, j :: 0 <= i < j < |UniqueColors(colors)| ==> UniqueColors(colors)[i] != UniqueColors(colors)[j]
    ensures |UniqueColors(colors)| <= 2
  {
    if colors != [] {
      var front, last := colors[..|colors| - 1], colors[|colors| - 1];
      UniqueIsExact(front);
      assert colors == front + [last];
      var unique := UniqueColors(front);
      assert |unique| == 2 ==> last == unique[0] || last == unique[1];
    }
  }

  function WinnerOutcome(winner: Color, status: Status, termination: Termination): TerminalOutcome {
    TerminalOutcome(if winner.White? then WhiteWin else BlackWin, status, termination, Some(winner))
  }

  function DeriveAbandonment(absentInput: seq<Color>): Result<TerminalOutcome, DomainError> {
    var absent := UniqueColors(absentInput);
    if |absent| == 2 then Ok(TerminalOutcome(Void, Abandoned, DoubleAbandon, None))
    else if |absent| == 0 then Err(InvalidTerminalEvent)
    else Ok(WinnerOutcome(absent[0].Opposite(), Abandoned, Abandonment))
  }

  function DeriveBoardOutcome(reason: Termination, winner: Option<Color>): Result<TerminalOutcome, DomainError> {
    if reason.Checkmate? then
      if winner.None? then Err(InvalidTerminalEvent)
      else Ok(WinnerOutcome(winner.value, Completed, reason))
    else if !reason.BoardDraw() || winner.Some? then Err(InvalidTerminalEvent)
    else Ok(TerminalOutcome(Draw, Completed, reason, None))
  }

  function DeriveNoShow(joinedInput: seq<Color>): Result<TerminalOutcome, DomainError> {
    var joined := UniqueColors(joinedInput);
    if |joined| == 0 then Ok(TerminalOutcome(Void, Expired, NoShow, None))
    else if |joined| == 1 then Ok(WinnerOutcome(joined[0], Expired, NoShow))
    else Err(InvalidTerminalEvent)
  }

  function DeriveTerminalOutcome(event: TerminalEvent): Result<TerminalOutcome, DomainError> {
    match event
    case BoardEvent(reason, winner) => DeriveBoardOutcome(reason, winner)
    case ResignationEvent(loser) => Ok(WinnerOutcome(loser.Opposite(), Completed, Resignation))
    case TimeoutEvent(loser) => Ok(WinnerOutcome(loser.Opposite(), Completed, Timeout))
    case AbandonmentEvent(absent) => DeriveAbandonment(absent)
    case NoShowEvent(joined) => DeriveNoShow(joined)
  }

  /** A result column agrees with who won: the winner's colour, or nobody for a draw or a void game. */
  predicate ResultMatchesWinner(result: GameResult, winner: Option<Color>) {
    match winner
    case Some(White) => result.WhiteWin?
    case Some(Black) => result.BlackWin?
    case None => result.Draw? || result.Void?
  }

  /** The combinations of status, termination and result a finished game may carry. */
  predicate CoherentOutcome(status: Status, termination: Termination, result: GameResult) {
    match termination
    case Checkmate | Resignation | Timeout => status.Completed? && (result.WhiteWin? || result.BlackWin?)
    case Stalemate | InsufficientMaterial | ThreefoldRepetition | FiftyMove => status.Completed? && result.Draw?
    case Abandonment => status.Abandoned? && (result.WhiteWin? || result.BlackWin?)
    case DoubleAbandon => status.Abandoned? && result.Void?
    case NoShow => status.Expired? && !result.Draw?
  }

  /** Who an event names as the losing side, if exactly one side loses by it. */
  function LosingSide(event: TerminalEvent): Option<Color> {
    match event
    case BoardEvent(_, winner) => if winner.Some? then Some(winner.value.Opposite()) else None
    case ResignationEvent(loser) => Some(loser)
    case TimeoutEvent(loser) => Some(loser)
    case AbandonmentEvent(absent) =>
      if White in absent && Black in absent then None
      else if White in absent then Some(White)
      else if Black in absent then Some(Black)
      else None
    case NoShowEvent(joined) =>
      if White in joined then Some(Black) else if Black in joined then Some(White) else None
  }

  /** Derivation refuses exactly the malformed events. */
  lemma DerivationRefusesExactly(event: TerminalEvent)
    ensures DeriveTerminalOutcome(event).Err? <==>
            match event
            case BoardEvent(reason, winner) =>
              if reason.Checkmate? then winner.None? else !reason.BoardDraw() || winner.Some?
            case AbandonmentEvent(absent) => White !in absent && Black !in absent
            case NoShowEvent(joined) => White in joined && Black in joined
            case _ => false
  {
    match event
    case AbandonmentEvent(absent) => TwoColors(absent);
    case NoShowEvent(joined) => TwoColors(joined);
    case _ =>
  }

  /** Every derived outcome is coherent, and the side the event blames never wins. */
  lemma DerivationIsCoherent(event: TerminalEvent)
    requires DeriveTerminalOutcome(event).Ok?
    ensures var o := DeriveTerminalOutcome(event).value;
            && o.status.Terminal()
            && CoherentOutcome(o.status, o.termination, o.result)
            && ResultMatchesWinner(o.result, o.winner)
            && o.winner == (match LosingSide(event) case Some(c) => Some(c.Opposite()) case None => None)
  {
    match event
    case AbandonmentEvent(absent) => TwoColors(absent);
    case NoShowEvent(joined) => TwoColors(joined);
    case _ =>
  }

  lemma TwoColors(colors: seq<Color>)
    ensures var u := UniqueColors(colors);
            && |u| <= 2
            && (|u| == 2 <==> White in colors && Black in colors)
            && (|u| == 0 <==> White !in colors && Black !in colors)
            && (|u| == 1 ==> u[0] in colors)
            && (|u| == 1 ==> u[0].Opposite() !in colors)
  {
    UniqueIsExact(colors);
    var u := UniqueColors(colors);
    if |u| == 1 {
      assert u[0] in u;
      assert u[0].Opposite() !in u;
    } else if |u| == 2 {
      assert u[0] in u && u[1] in u && u[0] != u[1];
    } else {
      assert White !in u && Black !in u;
    }
  }

  // ----- the status transition table -----

  datatype Transition =
    | Abandon
    | AcceptMove
    | AcceptTerminalMove
    | AllocateGame
    | ExpireNoShow
    | MarkPlayersReady
    | PlayerDisconnected
    | PlayerReconnected
    | Resign
    | Start
    | TimeoutFlag

  datatype TransitionRule = TransitionRule(
    from: set<Status>,
    outcomeStatus: Option<Status>,
    to: Status,
    versionDelta: nat)

  const MAX_SAFE_INTEGER: int := 9007199254740991

  function RuleFor(t: Transition): TransitionRule {
    match t
    case Abandon => TransitionRule({InProgress, Reconnecting}, Some(Abandoned), Abandoned, 1)
    case AcceptMove => TransitionRule({InProgress}, None, InProgress, 1)
    case AcceptTerminalMove => TransitionRule({InProgress}, Some(Completed), Completed, 1)
    case AllocateGame => TransitionRule({Created}, None, WaitingForPlayers, 0)
    case ExpireNoShow => TransitionRule({WaitingForPlayers}, Some(Expired), Expired, 1)
    case MarkPlayersReady => TransitionRule({WaitingForPlayers}, None, Ready, 1)
    case PlayerDisconnected => TransitionRule({InProgress, Reconnecting}, None, Reconnecting, 1)
    case PlayerReconnected => TransitionRule({Reconnecting}, None, InProgress, 1)
    case Resign => TransitionRule({InProgress, Reconnecting}, Some(Completed), Completed, 1)
    case Start => TransitionRule({Ready}, None, InProgress, 1)
    case TimeoutFlag => TransitionRule({InProgress, Reconnecting}, Some(Completed), Completed, 1)
  }

  predicate ValidTermination(t: Transition, termination: Termination) {
    || (t.AcceptTerminalMove? && (termination.Checkmate? || termination.BoardDraw()))
    || (t.Resign? && termination.Resignation?)
    || (t.TimeoutFlag? && termination.Timeout?)
    || (t.ExpireNoShow? && termination.NoShow?)
    || (t.Abandon? && (termination.Abandonment? || termination.DoubleAbandon?))
  }

  predicate ValidOutcome(outcome: Option<TerminalOutcome>, t: Transition) {
    match RuleFor(t).outcomeStatus
    case None => outcome.None?
    case Some(required) =>
      outcome.Some? && outcome.value.status == required && ValidTermination(t, outcome.value.termination)
  }

  datatype GameState = GameState(status: Status, version: int)

  function TransitionGame(
    state: GameState, t: Transition, outcome: Option<TerminalOutcome>): Result<GameState, DomainError>
  {
    if !(0 <= state.version <= MAX_SAFE_INTEGER) then Err(InvalidGameState)
    else if state.status !in RuleFor(t).from then Err(IllegalTransition)
    else if !ValidOutcome(outcome, t) then Err(InvalidGameState)
    else
      var version := state.version + RuleFor(t).versionDelta;
      if version > MAX_SAFE_INTEGER then Err(InvalidGameState)
      else Ok(GameState(RuleFor(t).to, version))
  }

  datatype TransitionStep = TransitionStep(transition: Transition, outcome: Option<TerminalOutcome>)

  /** Following a path of transitions through the table. */
  function FollowPath(state: GameState, path: seq<TransitionStep>): Result<GameState, DomainError>
    decreases |path|
  {
    if path == [] then Ok(state)
    else
      match TransitionGame(state, path[0].transition, path[0].outcome)
      case Err(e) => Err(e)
      case Ok(next) => FollowPath(next, path[1..])
  }

  /** Nothing leaves a terminal status, and no path lowers the version. */
  lemma {:induction false} PathsOnlyAdvance(state: GameState, path: seq<TransitionStep>)
    requires FollowPath(state, path).Ok?
    ensures var final := FollowPath(state, path).value;
            && final.version >= state.version
            && (!state.status.Created? ==> final.version == state.version + |path|)
            && (state.status.Terminal() ==> path == [] && final == state)
            && (!state.status.Created? ==> !final.status.Created?)
    decreases |path|
  {
    if path != [] {
      var next := TransitionGame(state, path[0].transition, path[0].outcome).value;
      PathsOnlyAdvance(next, path[1..]);
    }
  }
}
