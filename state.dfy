/**
 * The client rules engine (src/lib/game/state.ts). Every derived value is a
 * function of an append-only history of moves: the board is a fold over the
 * visible entries starting from a fixed 16-piece layout, the available moves
 * are computed per piece with a mandatory-capture pass, and the current player
 * follows the last entry, with a capture chain keeping the turn.
 */
module ClientState {
  import opened Options
  import P = Position

  datatype Player = Red | Black

  function Other(p: Player): Player {
    match p
    case Red => Black
    case Black => Red
  }

  datatype Piece = Dame | Peon

  /** What a board square holds. */
  datatype CellState = CellState(player: Player, piece: Piece)

  /** The only piece event: promotion to another piece. */
  datatype PieceEvent = Promote(to: Piece)

  /** `'move' | 'capture'`. */
  datatype MoveType = Step | Capture

  /**
   * A history entry. `target` is present on well-formed captures only; the
   * positions are plain strings because the stored history is re-validated
   * when it is folded.
   */
  datatype Move = Move(
    player: Player,
    event: Option<PieceEvent>,
    mtype: MoveType,
    hidden: bool,
    piece: Piece,
    from: string,
    to: string,
    target: Option<string>)

  type Board = map<string, CellState>

  /**
   * `isValidPosition`: membership in the 64 squares, which are exactly the
   * labels of one column letter and one row numeral (lemma
   * `Position.PositionsExactlyTheSquares`).
   */
  predicate IsValidPosition(s: string) {
    P.IsPosition(s)
  }

  // ---------------------------------------------------------------------------
  // playerConfig and pieceConfig
  // ---------------------------------------------------------------------------

  datatype Direction = LtoR | RtoL | All

  function PlayerDirection(p: Player): Direction {
    match p
    case Red => LtoR
    case Black => RtoL
  }

  function PromotionColumn(p: Player): string {
    match p
    case Red => "h"
    case Black => "a"
  }

  datatype MoveOffset = MoveOffset(direction: Direction, dCol: int, dRow: int)

  function PieceOffsets(piece: Piece): seq<MoveOffset> {
    match piece
    case Dame => [MoveOffset(All, -1, -1), MoveOffset(All, -1, 1), MoveOffset(All, 1, -1), MoveOffset(All, 1, 1)]
    case Peon => [MoveOffset(LtoR, 1, 1), MoveOffset(LtoR, 1, -1), MoveOffset(RtoL, -1, 1), MoveOffset(RtoL, -1, -1)]
  }

  /** The piece a piece is promoted to, if any. */
  function Promotion(piece: Piece): Option<Piece> {
    match piece
    case Dame => None
    case Peon => Some(Dame)
  }

  // ---------------------------------------------------------------------------
  // historyAtom
  // ---------------------------------------------------------------------------

  /** The read side of `historyAtom`: the stored entries that are not hidden, in order. */
  function Visible(stored: seq<Move>): (h: seq<Move>)
    ensures |h| <= |stored|
    ensures forall m :: m in h <==> m in stored && !m.hidden
  {
    if stored == [] then []
    else (if stored[0].hidden then [] else [stored[0]]) + Visible(stored[1..])
  }

  /** Filtering distributes over concatenation. */
  lemma {:induction false} VisibleConcat(a: seq<Move>, b: seq<Move>)
    ensures Visible(a + b) == Visible(a) + Visible(b)
  {
    if a == [] {
      assert a + b == b;
    } else {
      assert (a + b)[0] == a[0] && (a + b)[1..] == a[1..] + b;
      VisibleConcat(a[1..], b);
      var head := if a[0].hidden then [] else [a[0]];
      assert Visible(a + b) == head + (Visible(a[1..]) + Visible(b));
      assert head + (Visible(a[1..]) + Visible(b)) == (head + Visible(a[1..])) + Visible(b);
    }
  }

  /** Filtering keeps the order and drops exactly the hidden entries. */
  lemma VisibleOfEntry(m: Move)
    ensures Visible([m]) == if m.hidden then [] else [m]
  {
    assert [m][1..] == [];
  }

  /** The entry the write side of `historyAtom` stores for `value`. */
  function Tagged(value: Move): Move {
    var col := P.FromPosition(value.to).0;
    var promotion := Promotion(value.piece);
    if P.Str(PromotionColumn(value.player)) == col && promotion.Some? then
      value.(event := Some(Promote(promotion.value)))
    else value
  }

  /** The stored history behind `historyAtom`, with its derived atoms. */
  class HistoryStore {
    var stored: seq<Move>

    constructor ()
      ensures stored == []
    {
      stored := [];
    }

    /** What every reader of `historyAtom` sees. */
    function History(): seq<Move>
      reads this
    {
      Visible(stored)
    }

    /** What `boardAtom` reads. */
    function Board(): Board
      reads this
    {
      BoardOf(History())
    }

    /** What `currentPlayerAtom` reads. */
    function CurrentPlayerNow(): Player
      reads this
    {
      CurrentPlayer(History())
    }

    /**
     * The write side of `historyAtom`: attach a promote event when a peon
     * reaches its player's promotion column, then append the entry.
     */
    method Write(value: Move)
      modifies this
      ensures stored == old(stored) + [Tagged(value)]
      ensures History() == if value.hidden then old(History()) else old(History()) + [Tagged(value)]
      ensures Board() == if value.hidden then old(Board()) else ApplyEntry(old(Board()), Tagged(value))
      ensures !value.hidden && value.mtype == Step ==> CurrentPlayerNow() == Other(value.player)
    {
      var entry := value;
      var col := P.FromPosition(value.to).0;
      var promotion := Promotion(value.piece);
      if P.Str(PromotionColumn(value.player)) == col && promotion.Some? {
        entry := entry.(event := Some(Promote(promotion.value)));
      }
      stored := stored + [entry];
      VisibleConcat(old(stored), [entry]);
      VisibleOfEntry(entry);
      assert Visible(old(stored)) + [] == Visible(old(stored));
      if !value.hidden {
        BoardSnoc(Visible(old(stored)), entry);
        if entry.mtype == Step {
          StepSnoc(Visible(old(stored)), entry);
        }
      }
    }
  }

  /** The board after one more entry is that entry applied to the board before it. */
  lemma BoardSnoc(history: seq<Move>, m: Move)
    ensures BoardOf(history + [m]) == ApplyEntry(BoardOf(history), m)
  {
    assert (history + [m])[..|history|] == history;
  }

  /** A step at the end of the history passes the turn. */
  lemma StepSnoc(history: seq<Move>, m: Move)
    requires m.mtype == Step
    ensures CurrentPlayer(history + [m]) == Other(m.player)
  {
    assert (history + [m])[|history|] == m;
  }

  // ---------------------------------------------------------------------------
  // boardAtom
  // ---------------------------------------------------------------------------

  const InitialBoard: Board := map[
    "a1" := CellState(Red, Dame), "b2" := CellState(Red, Peon),
    "a3" := CellState(Red, Dame), "b4" := CellState(Red, Peon),
    "a5" := CellState(Red, Dame), "b6" := CellState(Red, Peon),
    "a7" := CellState(Red, Dame), "b8" := CellState(Red, Peon),
    "g1" := CellState(Black, Peon), "h2" := CellState(Black, Dame),
    "g3" := CellState(Black, Peon), "h4" := CellState(Black, Dame),
    "g5" := CellState(Black, Peon), "h6" := CellState(Black, Dame),
    "g7" := CellState(Black, Peon), "h8" := CellState(Black, Dame)]

  /** `'target' in move && move.type === 'capture'`. */
  predicate IsCapture(m: Move) {
    m.target.Some? && m.mtype == Capture
  }

  /** The guards that make the fold `continue` past an entry. */
  predicate Skipped(board: Board, m: Move) {
    || m.from !in board || !IsValidPosition(m.from)
    || m.to in board || !IsValidPosition(m.to)
    || (IsCapture(m) && !IsValidPosition(m.target.value))
  }

  /** One iteration of the fold in `boardAtom`. */
  function ApplyEntry(board: Board, m: Move): Board {
    if Skipped(board, m) then board
    else
      var fromCell := board[m.from];
      var moved := board[m.to := fromCell] - {m.from};
      var cleared := if IsCapture(m) then moved - {m.target.value} else moved;
      match m.event
      case Some(Promote(p)) => cleared[m.to := fromCell.(piece := p)]
      case None => cleared
  }

  /** The board after folding `history` into `board`, oldest entry first. */
  function Fold(board: Board, history: seq<Move>): Board {
    if history == [] then board
    else ApplyEntry(Fold(board, history[..|history| - 1]), history[|history| - 1])
  }

  /** `boardAtom` as a function of the (already filtered) history. */
  function BoardOf(history: seq<Move>): Board {
    Fold(InitialBoard, history)
  }

  /** `boardAtom`'s loop, which sets and deletes entries of a board map. */
  method ComputeBoard(history: seq<Move>) returns (board: Board)
    ensures board == BoardOf(history)
  {
    board := InitialBoard;
    for i := 0 to |history|
      invariant board == Fold(InitialBoard, history[..i])
    {
      var move := history[i];
      assert history[..i + 1][..i] == history[..i];
      if move.from in board && IsValidPosition(move.from) {
        var fromCell := board[move.from];
        if move.to !in board && IsValidPosition(move.to) {
          if move.target.Some? && move.mtype == Capture {
            if IsValidPosition(move.target.value) {
              board := board[move.to := board[move.from]];
              board := board - {move.from};
              board := board - {move.target.value};
              if move.event.Some? {
                board := board[move.to := fromCell.(piece := move.event.value.to)];
              }
            }
          } else {
            board := board[move.to := board[move.from]];
            board := board - {move.from};
            if move.event.Some? {
              board := board[move.to := fromCell.(piece := move.event.value.to)];
            }
          }
        }
      }
    }
    assert history[..|history|] == history;
  }

  // ---------------------------------------------------------------------------
  // availableMovesAtom
  // ---------------------------------------------------------------------------

  /** `config.moves.filter(...)`: the offsets of `piece` usable by `player`. */
  function AllowedOffsets(piece: Piece, player: Player): seq<MoveOffset> {
    FilterDirection(PieceOffsets(piece), PlayerDirection(player))
  }

  function FilterDirection(offsets: seq<MoveOffset>, direction: Direction): (r: seq<MoveOffset>)
    ensures forall o :: o in r <==> o in offsets && (o.direction == All || o.direction == direction)
  {
    if offsets == [] then []
    else
      var here := if offsets[0].direction == All || offsets[0].direction == direction then [offsets[0]] else [];
      here + FilterDirection(offsets[1..], direction)
  }

  /**
   * `toPosition(iCol + dCol * k, iRow + dRow * k)` from the indices of
   * `position`, kept only when it is a valid position (`k` is 1 for the
   * neighbour and 2 for the landing square of a hop).
   */
  function Square(position: string, o: MoveOffset, k: int): Option<string> {
    var iCol, iRow := P.ToIndex(position).0, P.ToIndex(position).1;
    var to := P.ToPosition(P.Num(iCol + o.dCol * k), P.Num(iRow + o.dRow * k));
    if to.Some? && IsValidPosition(to.value) then to else None
  }

  /** The move the offset `o` offers the piece `cell` on `position`, if any. */
  function Candidate(board: Board, position: string, cell: CellState, o: MoveOffset): Option<Move> {
    CandidateFrom(board, position, cell, Square(position, o, 1), Square(position, o, 2))
  }

  /** The body of one offset iteration, given its neighbour `to` and landing square `destination`. */
  function CandidateFrom(board: Board, position: string, cell: CellState, to: Option<string>, destination: Option<string>): Option<Move> {
    if to.None? then None
    else if to.value in board && board[to.value].player != cell.player then
      if destination.None? || destination.value in board then None
      else Some(Move(cell.player, None, Capture, false, cell.piece, position, destination.value, Some(to.value)))
    else if to.value !in board then
      Some(Move(cell.player, None, Step, false, cell.piece, position, to.value, None))
    else None
  }

  /** The candidates of `offsets`, in order. */
  function Candidates(board: Board, position: string, cell: CellState, offsets: seq<MoveOffset>): seq<Move> {
    if offsets == [] then []
    else
      var last := Candidate(board, position, cell, offsets[|offsets| - 1]);
      Candidates(board, position, cell, offsets[..|offsets| - 1]) + (if last.Some? then [last.value] else [])
  }

  /** Extending the offsets by one adds that offset's candidate, if any. */
  lemma CandidatesStep(board: Board, position: string, cell: CellState, offsets: seq<MoveOffset>, j: nat)
    requires j < |offsets|
    ensures var c := Candidate(board, position, cell, offsets[j]);
      Candidates(board, position, cell, offsets[..j + 1])
        == Candidates(board, position, cell, offsets[..j]) + (if c.Some? then [c.value] else [])
  {
    assert offsets[..j + 1][..j] == offsets[..j];
  }

  /** The list the first loop of `availableMovesAtom` stores for `position`. */
  function RawMoves(board: Board, position: string): seq<Move>
    requires position in board
  {
    var cell := board[position];
    Candidates(board, position, cell, AllowedOffsets(cell.piece, cell.player))
  }

  /** `moves.some((move) => move.type === 'capture')`. */
  predicate HasCapture(moves: seq<Move>) {
    exists m :: m in moves && m.mtype == Capture
  }

  /** Appending one move adds a capture exactly when that move is one. */
  lemma HasCaptureSnoc(moves: seq<Move>, m: Move)
    ensures HasCapture(moves + [m]) <==> HasCapture(moves) || m.mtype == Capture
  {
    assert m in moves + [m];
    assert forall x :: x in moves ==> x in moves + [m];
  }

  /**
   * One step of the inner loop keeps the capture flag in step with the list:
   * the player is flagged once any collected move is a capture.
   */
  lemma CaptureFlagStep(available: seq<Move>, c: Option<Move>, canCapture: map<Player, bool>,
                        flags: map<Player, bool>, flags': map<Player, bool>, player: Player)
    requires flags == if HasCapture(available) then canCapture[player := true] else canCapture
    requires flags' == if c.Some? && c.value.mtype == Capture then flags[player := true] else flags
    ensures var next := available + (if c.Some? then [c.value] else []);
      flags' == if HasCapture(next) then canCapture[player := true] else canCapture
  {
    if c.Some? {
      HasCaptureSnoc(available, c.value);
      if c.value.mtype == Capture && HasCapture(available) {
        assert flags[player := true] == canCapture[player := true];
      }
    } else {
      assert available + [] == available;
    }
  }

  /** `moves.filter((move) => move.type === 'capture')`. */
  function OnlyCaptures(moves: seq<Move>): (r: seq<Move>)
    ensures forall m :: m in r <==> m in moves && m.mtype == Capture
  {
    if moves == [] then []
    else (if moves[0].mtype == Capture then [moves[0]] else []) + OnlyCaptures(moves[1..])
  }

  /** The map the first loop of `availableMovesAtom` builds: every occupied square with its candidates. */
  function RawMap(board: Board): map<string, seq<Move>> {
    map p | p in board :: RawMoves(board, p)
  }

  /** `canCapture.get(player)` for the lists `raw`: some piece of `player` has a capture. */
  predicate PlayerCanCapture(board: Board, raw: map<string, seq<Move>>, player: Player) {
    exists p :: p in raw && p in board && board[p].player == player && HasCapture(raw[p])
  }

  /** `canCapture` maps to `true` exactly the players with a capture in `moves`. */
  predicate FlagsExact(board: Board, moves: map<string, seq<Move>>, canCapture: map<Player, bool>) {
    && (forall pl :: pl in canCapture ==> canCapture[pl])
    && (forall pl :: pl in canCapture <==> PlayerCanCapture(board, moves, pl))
  }

  /**
   * One step of the first loop keeps `canCapture` exact: a player is flagged
   * once one of its pieces collected so far has a capture.
   */
  lemma CanCaptureStep(board: Board, moves: map<string, seq<Move>>, canCapture: map<Player, bool>,
                       position: string, available: seq<Move>, canCapture': map<Player, bool>)
    requires position in board && position !in moves
    requires FlagsExact(board, moves, canCapture)
    requires canCapture' == if HasCapture(available) then canCapture[board[position].player := true] else canCapture
    ensures FlagsExact(board, moves[position := available], canCapture')
  {
    var moves' := moves[position := available];
    forall pl
      ensures pl in canCapture' <==> PlayerCanCapture(board, moves', pl)
    {
      if PlayerCanCapture(board, moves, pl) {
        var p :| p in moves && p in board && board[p].player == pl && HasCapture(moves[p]);
        assert p in moves' && moves'[p] == moves[p];
      }
      if PlayerCanCapture(board, moves', pl) {
        var p :| p in moves' && p in board && board[p].player == pl && HasCapture(moves'[p]);
        if p != position {
          assert p in moves && moves[p] == moves'[p];
        }
      }
      if HasCapture(available) && board[position].player == pl {
        assert position in moves' && moves'[position] == available;
      }
    }
  }

  /** The second loop of `availableMovesAtom`: only captures for a player who can capture. */
  function Mandatory(board: Board, raw: map<string, seq<Move>>): map<string, seq<Move>> {
    map p | p in raw && p in board ::
      if PlayerCanCapture(board, raw, board[p].player) || HasCapture(raw[p]) then OnlyCaptures(raw[p]) else raw[p]
  }

  /** Some piece of `player` has a capture candidate on `board`. */
  predicate CanCapture(board: Board, player: Player) {
    PlayerCanCapture(board, RawMap(board), player)
  }

  /** `availableMovesAtom` as a function of the board. */
  function AvailableMoves(board: Board): map<string, seq<Move>> {
    Mandatory(board, RawMap(board))
  }

  /**
   * The body of the inner loop of `availableMovesAtom`: what one offset of the
   * piece `cell` on `position` contributes.
   */
  method OffsetCandidate(board: Board, position: string, cell: CellState, o: MoveOffset) returns (c: Option<Move>)
    ensures c == Candidate(board, position, cell, o)
  {
    c := None;
    var to := Square(position, o, 1);
    if to.Some? {
      var target := to.value;
      if target in board && board[target].player != cell.player {
        var destination := Square(position, o, 2);
        if destination.Some? && destination.value !in board {
          c := Some(Move(cell.player, None, Capture, false, cell.piece, position, destination.value, Some(target)));
        }
      } else if target !in board {
        c := Some(Move(cell.player, None, Step, false, cell.piece, position, target, None));
      }
    }
  }

  /**
   * The inner loop of `availableMovesAtom` for the piece on `position`: collect
   * its candidates and record in `canCapture` that its player can capture.
   */
  method CollectPieceMoves(board: Board, position: string, canCapture: map<Player, bool>)
    returns (available: seq<Move>, canCapture': map<Player, bool>)
    requires position in board
    ensures available == RawMoves(board, position)
    ensures canCapture' == if HasCapture(available) then canCapture[board[position].player := true] else canCapture
  {
    var cell := board[position];
    var offsets := AllowedOffsets(cell.piece, cell.player);
    available := [];
    canCapture' := canCapture;
    for j := 0 to |offsets|
      invariant available == Candidates(board, position, cell, offsets[..j])
      invariant canCapture' == if HasCapture(available) then canCapture[cell.player := true] else canCapture
    {
      var c := OffsetCandidate(board, position, cell, offsets[j]);
      CandidatesStep(board, position, cell, offsets, j);
      ghost var before, flagsBefore := available, canCapture';
      if c.Some? {
        available := available + [c.value];
        if c.value.mtype == Capture {
          canCapture' := canCapture'[cell.player := true];
        }
      }
      CaptureFlagStep(before, c, canCapture, flagsBefore, canCapture', cell.player);
    }
    assert offsets[..|offsets|] == offsets;
  }

  /** `availableMovesAtom`: its first loop, then its second loop, which enforces mandatory capture. */
  method ComputeAvailableMoves(board: Board) returns (moves: map<string, seq<Move>>)
    ensures moves == AvailableMoves(board)
  {
    var canCapture;
    moves, canCapture := CollectAllMoves(board);
    moves := EnforceMandatoryCapture(board, moves, canCapture);
  }

  /**
   * The first loop of `availableMovesAtom`: the candidate list of every
   * occupied square, and `canCapture` set for exactly the players with a capture.
   */
  method CollectAllMoves(board: Board) returns (moves: map<string, seq<Move>>, canCapture: map<Player, bool>)
    ensures moves == RawMap(board)
    ensures FlagsExact(board, moves, canCapture)
  {
    moves := map[];
    canCapture := map[];
    var todo := board.Keys;
    while todo != {}
      invariant todo <= board.Keys
      invariant moves.Keys == board.Keys - todo
      invariant forall p :: p in moves ==> moves[p] == RawMoves(board, p)
      invariant FlagsExact(board, moves, canCapture)
      decreases todo
    {
      var position :| position in todo;
      var available, canCapture' := CollectPieceMoves(board, position, canCapture);
      CanCaptureStep(board, moves, canCapture, position, available, canCapture');
      moves, canCapture := moves[position := available], canCapture';
      todo := todo - {position};
    }
    RawMapFrom(board, moves);
  }

  /** A map keyed by the occupied squares, holding each square's candidates, is `RawMap`. */
  lemma RawMapFrom(board: Board, moves: map<string, seq<Move>>)
    requires moves.Keys == board.Keys
    requires forall p :: p in moves ==> moves[p] == RawMoves(board, p)
    ensures moves == RawMap(board)
  {}

  /** The second loop of `availableMovesAtom`: keep only captures where the player can capture. */
  method EnforceMandatoryCapture(board: Board, raw: map<string, seq<Move>>, canCapture: map<Player, bool>)
    returns (moves: map<string, seq<Move>>)
    requires raw.Keys == board.Keys
    requires FlagsExact(board, raw, canCapture)
    ensures moves == Mandatory(board, raw)
  {
    moves := raw;
    var rest := moves.Keys;
    while rest != {}
      invariant rest <= board.Keys
      invariant moves.Keys == board.Keys
      invariant forall p :: p in board && p !in rest ==> moves[p] == Mandatory(board, raw)[p]
      invariant forall p :: p in rest ==> moves[p] == raw[p]
      decreases rest
    {
      var position :| position in rest;
      var player := board[position].player;
      var playerCanCapture := player in canCapture && canCapture[player];
      if playerCanCapture || HasCapture(moves[position]) {
        moves := moves[position := OnlyCaptures(moves[position])];
      }
      rest := rest - {position};
    }
  }

  // ---------------------------------------------------------------------------
  // currentPlayerAtom
  // ---------------------------------------------------------------------------

  /**
   * Red on an empty history; otherwise the other player, unless the last entry
   * is a capture and the piece on its destination still has a capture.
   */
  function CurrentPlayer(history: seq<Move>): Player {
    if history == [] then Red
    else
      var last := history[|history| - 1];
      var available := AvailableMoves(BoardOf(history));
      if last.mtype == Capture && last.to in available && HasCapture(available[last.to]) then last.player
      else Other(last.player)
  }
}
