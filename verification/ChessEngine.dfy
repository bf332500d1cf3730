/** The chess engine adapter over an abstract chess.js.  A chess.js object is
    determined by the position it was created from and the moves it has accepted,
    so that is what a Position is here; the rules themselves are parameters. */
module ChessEngine {
  import opened Domain

  datatype MoveInput = MoveInput(from: string, to: string, promotion: Option<char>)

  /** What chess.js reports for a move it accepted. */
  datatype LegalMove = LegalMove(
    from: string,
    to: string,
    promotion: Option<char>,
    color: Color,
    san: string,
    capture: bool)
  {
    function Input(): MoveInput { MoveInput(from, to, promotion) }

    function Uci(): string { PrintUci(Input()) }
  }

  datatype Position = Position(initialFen: string, played: seq<MoveInput>)
  {
    function After(move: LegalMove): Position { this.(played := played + [move.Input()]) }
  }

  function StartOf(fen: string): Position { Position(fen, []) }

  datatype Rules = Rules(
    defaultFen: string,
    validFen: string -> bool,
    fen: Position -> string,
    turn: Position -> Color,
    pawnAt: (Position, string) -> bool,
    legal: (Position, MoveInput) -> Option<LegalMove>,
    check: Position -> bool,
    checkmate: Position -> bool,
    stalemate: Position -> bool,
    insufficientMaterial: Position -> bool,
    threefoldRepetition: Position -> bool,
    fiftyMoves: Position -> bool,
    pgn: (Position, string) -> string)
  {
    /** What is taken from chess.js on trust: a reported move is made of squares, belongs to
        the side to move, is accepted again when fed back, and passes the turn. */
    ghost predicate Faithful() {
      && validFen(defaultFen)
      && fen(StartOf(defaultFen)) == defaultFen
      && turn(StartOf(defaultFen)).White?
      && (forall p :: fen(p) != "")
      && (forall p, m :: legal(p, m).Some? ==> FaithfulMove(p, legal(p, m).value))
    }

    ghost predicate FaithfulMove(p: Position, move: LegalMove) {
      && IsSquare(move.from) && IsSquare(move.to)
      && (move.promotion.Some? ==> IsPromotionPiece(move.promotion.value))
      && move.san != ""
      && move.color == turn(p)
      && legal(p, move.Input()) == Some(move)
      && turn(p.After(move)) == move.color.Opposite()
    }
  }

  datatype ChessError = StateCorrupt | IllegalMove | InvalidInitialPosition

  datatype GameOver = NotOver | Over(reason: Termination, winner: Option<Color>)

  datatype AppliedMove = AppliedMove(
    capture: bool,
    check: bool,
    color: Color,
    fenBefore: string,
    fenAfter: string,
    plyNumber: nat,
    san: string,
    uci: string)

  datatype Evaluation = Evaluation(applied: AppliedMove, gameOver: GameOver, pgn: string)

  // ----- UCI text -----

  predicate IsSquare(s: string) {
    |s| == 2 && 'a' <= s[0] <= 'h' && '1' <= s[1] <= '8'
  }

  predicate IsPromotionPiece(c: char) { c == 'b' || c == 'n' || c == 'q' || c == 'r' }

  /** The pattern persisted moves are tested against. */
  predicate IsUci(s: string) {
    && (|s| == 4 || |s| == 5)
    && IsSquare(s[0..2]) && IsSquare(s[2..4])
    && (|s| == 5 ==> IsPromotionPiece(s[4]))
  }

  function PrintUci(m: MoveInput): string {
    m.from + m.to + (if m.promotion.Some? then [m.promotion.value] else [])
  }

  function ParseUci(s: string): MoveInput
    requires IsUci(s)
  {
    MoveInput(s[0..2], s[2..4], if |s| == 5 then Some(s[4]) else None)
  }

  /** Printing and parsing are inverse to each other on well-formed moves and texts. */
  lemma UciRoundTrip(m: MoveInput, s: string)
    requires IsSquare(m.from) && IsSquare(m.to) && (m.promotion.Some? ==> IsPromotionPiece(m.promotion.value))
    requires IsUci(s)
    ensures IsUci(PrintUci(m)) && ParseUci(PrintUci(m)) == m
    ensures PrintUci(ParseUci(s)) == s
  {
    PrintedUciParses(m);
    var p := ParseUci(s);
    if |s| == 5 {
      assert s == s[0..2] + s[2..4] + [s[4]];
    } else {
      assert s == s[0..2] + s[2..4] + [];
    }
  }

  lemma PrintedUciParses(m: MoveInput)
    requires IsSquare(m.from) && IsSquare(m.to) && (m.promotion.Some? ==> IsPromotionPiece(m.promotion.value))
    ensures IsUci(PrintUci(m)) && ParseUci(PrintUci(m)) == m
  {
    var s := PrintUci(m);
    assert s[0..2] == m.from;
    assert s[2..4] == m.to;
  }

  // ----- what the engine computes -----

  /** Replaying a history of persisted moves. */
  function Replay(rules: Rules, initialFen: string, history: seq<string>): Result<Position, ChessError> {
    if history == [] then
      if rules.validFen(initialFen) then Ok(StartOf(initialFen)) else Err(InvalidInitialPosition)
    else
      match Replay(rules, initialFen, history[..|history| - 1])
      case Err(e) => Err(e)
      case Ok(p) => ReplayOne(rules, p, history[|history| - 1])
  }

  function ReplayOne(rules: Rules, p: Position, uci: string): Result<Position, ChessError> {
    if !IsUci(uci) then Err(StateCorrupt)
    else
      match rules.legal(p, ParseUci(uci))
      case None => Err(StateCorrupt)
      case Some(move) => Ok(p.After(move))
  }

  predicate ProposalWellFormed(rules: Rules, p: Position, m: MoveInput) {
    && IsSquare(m.from) && IsSquare(m.to)
    && (m.promotion.Some? ==> rules.pawnAt(p, m.from) && (m.to[1] == '1' || m.to[1] == '8'))
  }

  /** The first matching ending, in the order the engine asks. */
  function GameOverAt(rules: Rules, p: Position): GameOver {
    if rules.checkmate(p) then Over(Checkmate, Some(rules.turn(p).Opposite()))
    else if rules.stalemate(p) then Over(Stalemate, None)
    else if rules.insufficientMaterial(p) then Over(InsufficientMaterial, None)
    else if rules.threefoldRepetition(p) then Over(ThreefoldRepetition, None)
    else if rules.fiftyMoves(p) then Over(FiftyMove, None)
    else NotOver
  }

  function PgnAt(rules: Rules, p: Position): string {
    var over := GameOverAt(rules, p);
    var result :=
      if over.NotOver? then "*"
      else if over.winner.None? then "1/2-1/2"
      else if over.winner.value.White? then "1-0"
      else "0-1";
    rules.pgn(p, result)
  }

  /** The outcome of a proposed move at a replayed position. */
  function EvaluateAt(rules: Rules, p: Position, m: MoveInput, plyNumber: nat): Result<Evaluation, ChessError> {
    if !ProposalWellFormed(rules, p, m) then Err(IllegalMove)
    else
      match rules.legal(p, m)
      case None => Err(IllegalMove)
      case Some(move) =>
        var after := p.After(move);
        Ok(Evaluation(
          AppliedMove(move.capture, rules.check(after), move.color, rules.fen(p), rules.fen(after),
                      plyNumber, move.san, move.Uci()),
          GameOverAt(rules, after),
          PgnAt(rules, after)))
  }

  function Evaluate(rules: Rules, expectedFen: string, history: seq<string>, initialFen: string, m: MoveInput)
    : Result<Evaluation, ChessError>
  {
    match Replay(rules, initialFen, history)
    case Err(e) => Err(e)
    case Ok(p) =>
      if rules.fen(p) != expectedFen then Err(StateCorrupt)
      else EvaluateAt(rules, p, m, |history| + 1)
  }

  /** An accepted move, stored as UCI text and replayed later, reaches the very position it
      was accepted into: the fen, the side to move and the ending all come out the same. */
  lemma AcceptedMoveReplays(rules: Rules, expectedFen: string, history: seq<string>, initialFen: string, m: MoveInput)
    requires rules.Faithful()
    requires Evaluate(rules, expectedFen, history, initialFen, m).Ok?
    ensures var e := Evaluate(rules, expectedFen, history, initialFen, m).value;
            var before := Replay(rules, initialFen, history);
            var after := Replay(rules, initialFen, history + [e.applied.uci]);
            && before.Ok? && after.Ok?
            && IsUci(e.applied.uci)
            && e.applied.fenBefore == rules.fen(before.value) == expectedFen
            && e.applied.fenAfter == rules.fen(after.value) && e.applied.fenAfter != ""
            && e.applied.san != ""
            && e.applied.color == rules.turn(before.value)
            && rules.turn(after.value) == e.applied.color.Opposite()
            && e.applied.plyNumber == |history| + 1
            && e.gameOver == GameOverAt(rules, after.value)
  {
    var p := Replay(rules, initialFen, history).value;
    var move := rules.legal(p, m).value;
    assert rules.FaithfulMove(p, move);
    PrintedUciParses(move.Input());
    assert (history + [move.Uci()])[..|history|] == history;
    assert ReplayOne(rules, p, move.Uci()) == Ok(p.After(move));
  }

  /** Ending reports are exactly what the outcome derivation accepts. */
  lemma GameOverDerives(rules: Rules, p: Position)
    requires GameOverAt(rules, p).Over?
    ensures var over := GameOverAt(rules, p);
            var outcome := DeriveTerminalOutcome(BoardEvent(over.reason, over.winner));
            && outcome.Ok?
            && outcome.value.status == Completed
            && ValidTermination(AcceptTerminalMove, outcome.value.termination)
            && (rules.checkmate(p) <==> outcome.value.winner == Some(rules.turn(p).Opposite()))
  {
  }

  // ----- the adapter itself, over a mutable chess.js object -----

  class Chess {
    const rules: Rules
    var position: Position

    constructor (rules: Rules, fen: string)
      ensures this.rules == rules && position == StartOf(fen)
    {
      this.rules := rules;
      position := StartOf(fen);
    }

    method Move(m: MoveInput) returns (move: Option<LegalMove>)
      modifies this
      ensures move == rules.legal(old(position), m)
      ensures position == if move.Some? then old(position).After(move.value) else old(position)
    {
      move := rules.legal(position, m);
      if move.Some? {
        position := position.After(move.value);
      }
    }
  }

  method ReplayHistory(rules: Rules, initialFen: string, history: seq<string>) returns (r: Result<Chess, ChessError>)
    ensures r.Ok? ==> fresh(r.value) && r.value.rules == rules
    ensures (match r case Ok(chess) => Ok(chess.position) case Err(e) => Err(e)) == Replay(rules, initialFen, history)
  {
    if !rules.validFen(initialFen) {
      ReplayFailureIsFinal(rules, initialFen, history, 0);
      return Err(InvalidInitialPosition);
    }
    var chess := new Chess(rules, initialFen);
    for index := 0 to |history|
      invariant fresh(chess) && chess.rules == rules
      invariant Replay(rules, initialFen, history[..index]) == Ok(chess.position)
    {
      assert history[..index + 1][..index] == history[..index];
      if !IsUci(history[index]) {
        ReplayFailureIsFinal(rules, initialFen, history, index + 1);
        return Err(StateCorrupt);
      }
      var move := chess.Move(ParseUci(history[index]));
      if move.None? {
        ReplayFailureIsFinal(rules, initialFen, history, index + 1);
        return Err(StateCorrupt);
      }
    }
    assert history[..|history|] == history;
    return Ok(chess);
  }

  /** The first failure of a replay is the failure of every longer one. */
  lemma {:induction false} ReplayFailureIsFinal(rules: Rules, initialFen: string, history: seq<string>, k: nat)
    requires k <= |history|
    requires Replay(rules, initialFen, history[..k]).Err?
    ensures Replay(rules, initialFen, history) == Replay(rules, initialFen, history[..k])
    decreases |history|
  {
    if k == |history| {
      assert history[..k] == history;
    } else {
      var front := history[..|history| - 1];
      assert front[..k] == history[..k];
      ReplayFailureIsFinal(rules, initialFen, front, k);
    }
  }

  method EvaluateMove(rules: Rules, expectedFen: string, history: seq<string>, initialFen: string, m: MoveInput)
    returns (r: Result<Evaluation, ChessError>)
    ensures r == Evaluate(rules, expectedFen, history, initialFen, m)
  {
    var replayed := ReplayHistory(rules, initialFen, history);
    if replayed.Err? {
      return Err(replayed.error);
    }
    var chess := replayed.value;
    var fenBefore := rules.fen(chess.position);
    if fenBefore != expectedFen {
      return Err(StateCorrupt);
    }
    if !ProposalWellFormed(rules, chess.position, m) {
      return Err(IllegalMove);
    }
    var move := chess.Move(m);
    if move.None? {
      return Err(IllegalMove);
    }
    var applied := AppliedMove(
      move.value.capture, rules.check(chess.position), move.value.color, fenBefore,
      rules.fen(chess.position), |history| + 1, move.value.san, move.value.Uci());
    return Ok(Evaluation(applied, GameOverAt(rules, chess.position), PgnAt(rules, chess.position)));
  }
}
