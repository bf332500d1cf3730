/** What a player is shown of a game: the snapshot view and its presentation. */
module Snapshots {
  import opened Domain
  import opened GameClock
  import opened ChessEngine
  import opened GameRows
  import opened GameInvariant

  /** A guest's public name and avatar, fixed when the session is created. */
  datatype Profile = Profile(name: string, avatar: string)

  type Profiles = GuestId -> Profile

  datatype PublicPlayer = PublicPlayer(avatar: string, color: Color, connected: bool, name: string)

  datatype WireMove = WireMove(color: Color, ply: nat, san: string, uci: string)

  datatype WireClocks = WireClocks(blackMs: int, running: Option<Color>, serverTime: int, whiteMs: int)

  datatype Payload = Payload(
    clocks: WireClocks,
    currentFen: string,
    initialFen: string,
    moves: seq<WireMove>,
    opponent: PublicPlayer,
    result: Option<GameResult>,
    status: Status,
    termination: Option<Termination>,
    turn: Color,
    you: PublicPlayer)

  /** The clocks of a game as shown at an instant; Err when its columns make no clock. */
  function ViewOf(game: GameRow, observedAt: int): Result<ClockView, DomainError> {
    var running := if game.status.Running() then Some(game.turnColor) else None;
    ClockViewAt(
      Clock(game.whiteClockMs, game.blackClockMs, game.incrementMs, running,
            if running.None? then None else game.turnStartedAt),
      observedAt)
  }

  function PublicOf(profiles: Profiles, player: PlayerRow, color: Color): PublicPlayer {
    PublicPlayer(profiles(player.guest).avatar, color, player.connectedAt.Some?, profiles(player.guest).name)
  }

  function WireMoves(moves: seq<MoveRow>): seq<WireMove> {
    seq(|moves|, i requires 0 <= i < |moves| => WireMove(moves[i].color, moves[i].ply, moves[i].san, moves[i].uci))
  }

  /** The game as its player `guest` sees it. */
  function Present(profiles: Profiles, agg: Aggregate, view: ClockView, guest: GuestId): Payload
    requires agg.ColorOf(guest).Some? && agg.white.guest != agg.black.guest
  {
    var you := agg.ColorOf(guest).value;
    Payload(
      WireClocks(view.blackMs, view.running, view.observedAt, view.whiteMs),
      agg.game.currentFen,
      agg.game.initialFen,
      WireMoves(agg.moves),
      PublicOf(profiles, agg.Player(you.Opposite()), you.Opposite()),
      agg.game.result,
      agg.game.status,
      agg.game.termination,
      agg.game.turnColor,
      PublicOf(profiles, agg.Player(you), you))
  }

  /** Every field but the server's time of day. */
  function Timeless(p: Payload): Payload { p.(clocks := p.clocks.(serverTime := 0)) }

  /** A consistent game can always be viewed. */
  lemma ViewNeverFails(rules: Rules, agg: Aggregate, at: int)
    requires AggOk(rules, agg)
    ensures ViewOf(agg.game, at).Ok?
  {
  }

  /** A finished game looks the same at every instant, but for the server time. */
  lemma FinishedViewIsTimeless(profiles: Profiles, rules: Rules, agg: Aggregate, guest: GuestId, at: int, later: int)
    requires AggOk(rules, agg) && agg.ColorOf(guest).Some? && agg.game.status.Terminal()
    ensures ViewOf(agg.game, at).Ok? && ViewOf(agg.game, later).Ok?
    ensures Timeless(Present(profiles, agg, ViewOf(agg.game, at).value, guest))
         == Timeless(Present(profiles, agg, ViewOf(agg.game, later).value, guest))
  {
    ViewNeverFails(rules, agg, at);
    ViewNeverFails(rules, agg, later);
  }
}
