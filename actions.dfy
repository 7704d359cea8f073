/**
 * The server's rules engine (src/lib/game/actions.ts). A game is a log of
 * entries of type `init`, `move` or `capture`, each with an `active` flag;
 * the game data is a replay of the active entries, the offered moves are
 * computed from the replayed board, a validated move appends one entry and
 * an undo deactivates the latest one. The database is an in-memory store:
 * a set of game ids and the log in creation order.
 */
module Actions {
  import opened Options
  import opened Common

  datatype EntryType = Init | MoveEntry | CaptureEntry

  /**
   * A history row joined with its piece: the piece's player and type are
   * carried on the entry itself. `from` is not read for `init` entries.
   */
  datatype Entry = Entry(
    gameId: string,
    etype: EntryType,
    player: Player,
    piece: PieceType,
    pieceId: string,
    from: string,
    to: string,
    active: bool)

  /** What a board square holds: `{player, piece, pieceId}`. */
  datatype PlayerPiece = PlayerPiece(player: Player, piece: PieceType, pieceId: string)

  type ServerBoard = map<string, PlayerPiece>

  /** The value of an `AvailableMoves` map: `'move'` or `'capture'`. */
  datatype MoveKind = MoveK | CaptureK

  type AvailableMoves = map<string, MoveKind>

  datatype GameData = GameData(
    gameId: string,
    board: ServerBoard,
    history: seq<Entry>,
    currentPlayer: Player,
    scores: map<Player, int>)

  /** The errors the server actions throw. */
  datatype ActionError =
    | InvalidGameId | InvalidFrom | InvalidTo | InvalidPlayerId
    | GameNotFound | NoPieceFound | InvalidMove

  function PieceOf(e: Entry): PlayerPiece {
    PlayerPiece(e.player, e.piece, e.pieceId)
  }

  // ---------------------------------------------------------------------------
  // queryGameData
  // ---------------------------------------------------------------------------

  /** The relation query: the entries of game `g` whose `active` flag is set, in log order. */
  function ActiveHistory(log: seq<Entry>, g: string): (h: seq<Entry>)
    ensures forall e :: e in h <==> e in log && e.active && e.gameId == g
  {
    if log == [] then []
    else
      var last := log[|log| - 1];
      ActiveHistory(log[..|log| - 1], g) + (if last.active && last.gameId == g then [last] else [])
  }

  /** `new Map(init.map(move => [move.to, move]))`: a later `init` on a square overwrites an earlier one. */
  function InitBoard(h: seq<Entry>): ServerBoard {
    if h == [] then map[]
    else
      var b := InitBoard(h[..|h| - 1]);
      var e := h[|h| - 1];
      if e.etype == Init then b[e.to := PieceOf(e)] else b
  }

  /** The `move` and `capture` entries, in order. */
  function Moves(h: seq<Entry>): (r: seq<Entry>)
    ensures forall e :: e in r <==> e in h && e.etype != Init
  {
    if h == [] then []
    else
      var e := h[|h| - 1];
      Moves(h[..|h| - 1]) + (if e.etype != Init then [e] else [])
  }

  /** `scores.get(player) ?? 0`. */
  function ScoreOf(scores: map<Player, int>, p: Player): int {
    if p in scores then scores[p] else 0
  }

  const InitialScores: map<Player, int> := map[Red := 0, Black := 0]

  /** The board and the scores while the entries are replayed. */
  datatype Replayed = Replayed(board: ServerBoard, scores: map<Player, int>)

  /**
   * `board.set(to, board.get(from)!)` then `board.delete(from)`. Setting an
   * absent piece stores `undefined`, which every reader sees as an empty
   * square: it is modelled as removing `to`.
   */
  function Relocate(board: ServerBoard, from: string, to: string): ServerBoard {
    (if from in board then board[to := board[from]] else board - {to}) - {from}
  }

  /** The square a capture lands on: the jumped square `to` plus the jump `to - from`. */
  function Landing(from: string, to: string): string {
    Beyond(IndexFromPosition(from), IndexFromPosition(to))
  }

  /** `toPosition(iColTo + colOffset, iRowTo + rowOffset)` for the offset from `iFrom` to `iTo`. */
  function Beyond(iFrom: (int, int), iTo: (int, int)): string {
    var colOffset := iTo.0 - iFrom.0;
    var rowOffset := iTo.1 - iFrom.1;
    ToPosition(Indices(iTo.0 + colOffset, iTo.1 + rowOffset))
  }

  /** One step of the `forEach` over the moves. */
  function ReplayEntry(s: Replayed, e: Entry): Replayed {
    if e.etype == MoveEntry then
      Replayed(Relocate(s.board, e.from, e.to), s.scores)
    else if e.etype == CaptureEntry then
      var finalPosition := Landing(e.from, e.to);
      if |finalPosition| > 0 then
        Replayed(Relocate(s.board, e.from, finalPosition) - {e.to},
                 s.scores[e.player := ScoreOf(s.scores, e.player) + 1])
      else s
    else s
  }

  function Replay(s: Replayed, moves: seq<Entry>): Replayed {
    if moves == [] then s else ReplayEntry(Replay(s, moves[..|moves| - 1]), moves[|moves| - 1])
  }

  lemma ReplayPrefix(s: Replayed, moves: seq<Entry>, i: nat)
    requires i < |moves|
    ensures Replay(s, moves[..i + 1]) == ReplayEntry(Replay(s, moves[..i]), moves[i])
  {
    assert moves[..i + 1][..i] == moves[..i];
  }

  /** How many entries of `h` have type `t`. */
  function CountType(h: seq<Entry>, t: EntryType): nat {
    if h == [] then 0
    else CountType(h[..|h| - 1], t) + (if h[|h| - 1].etype == t then 1 else 0)
  }

  /** How many capture entries of `h` belong to player `p`. */
  function CapturesBy(h: seq<Entry>, p: Player): nat {
    if h == [] then 0
    else CapturesBy(h[..|h| - 1], p) + (if h[|h| - 1].etype == CaptureEntry && h[|h| - 1].player == p then 1 else 0)
  }

  /** Red moves when the number of `move` entries is even. */
  function CurrentPlayerOf(h: seq<Entry>): Player {
    if CountType(h, MoveEntry) % 2 == 0 then Red else Black
  }

  /** What `queryGameData` returns: nothing for an unknown game, else the replayed data. */
  function GameDataOf(games: set<string>, log: seq<Entry>, g: string): Option<GameData> {
    if g !in games then None
    else
      var h := ActiveHistory(log, g);
      var s := Replay(Replayed(InitBoard(h), InitialScores), Moves(h));
      Some(GameData(g, s.board, h, CurrentPlayerOf(h), s.scores))
  }

  // ---------------------------------------------------------------------------
  // getAvailableMoves
  // ---------------------------------------------------------------------------

  datatype Offset = Offset(dCol: int, dRow: int)

  /** The four diagonals; a king takes all, a red pawn the `+1` column ones, a black pawn the `-1` ones. */
  function PieceOffsets(piece: PlayerPiece): seq<Offset> {
    var king := piece.piece == King;
    (if king || piece.player == Red then [Offset(1, 1)] else [])
    + (if king || piece.player == Red then [Offset(1, -1)] else [])
    + (if king || piece.player == Black then [Offset(-1, 1)] else [])
    + (if king || piece.player == Black then [Offset(-1, -1)] else [])
  }

  /** The test position: `toPosition(iCol + colOffset, iRow + rowOffset)`. */
  function Neighbour(iCol: int, iRow: int, o: Offset): string {
    ToPosition(Indices(iCol + o.dCol, iRow + o.dRow))
  }

  /** The ending position of a capture: `toPosition(iCol + colOffset * 2, iRow + rowOffset * 2)`. */
  function Ending(iCol: int, iRow: int, o: Offset): string {
    ToPosition(Indices(iCol + o.dCol * 2, iRow + o.dRow * 2))
  }

  /** The neighbours of `(iCol, iRow)` along the offsets, dropping falsy labels. */
  function TestPositions(iCol: int, iRow: int, offsets: seq<Offset>): seq<(string, Offset)> {
    if offsets == [] then []
    else
      var testPosition := Neighbour(iCol, iRow, offsets[0]);
      (if |testPosition| > 0 then [(testPosition, offsets[0])] else [])
      + TestPositions(iCol, iRow, offsets[1..])
  }

  /** One step of the `forEach` that fills the available moves. */
  function OfferAt(board: ServerBoard, piece: PlayerPiece, iCol: int, iRow: int,
                   t: (string, Offset), acc: AvailableMoves): AvailableMoves
  {
    var (testPosition, o) := t;
    if testPosition in board then
      if board[testPosition].player != piece.player then
        var endingPosition := Ending(iCol, iRow, o);
        if |endingPosition| == 0 then acc
        else if endingPosition !in board then acc[testPosition := CaptureK]
        else acc
      else acc
    else acc[testPosition := MoveK]
  }

  function Offers(board: ServerBoard, piece: PlayerPiece, iCol: int, iRow: int,
                  tests: seq<(string, Offset)>): AvailableMoves
  {
    if tests == [] then map[]
    else OfferAt(board, piece, iCol, iRow, tests[|tests| - 1],
                 Offers(board, piece, iCol, iRow, tests[..|tests| - 1]))
  }

  /** The moves offered to the piece on `position` of `board`. */
  function MovesFrom(board: ServerBoard, position: string): AvailableMoves
    requires position in board
  {
    var piece := board[position];
    var (iCol, iRow) := IndexFromPosition(position);
    Offers(board, piece, iCol, iRow, TestPositions(iCol, iRow, PieceOffsets(piece)))
  }

  /** What `getAvailableMoves` returns or throws. */
  function AvailableMovesResult(games: set<string>, log: seq<Entry>, g: string, position: string)
    : Result<AvailableMoves, ActionError>
  {
    match GameDataOf(games, log, g)
    case None => Err(GameNotFound)
    case Some(data) =>
      if position !in data.board then Err(NoPieceFound) else Ok(MovesFrom(data.board, position))
  }

  // ---------------------------------------------------------------------------
  // movePiece / capturePiece and undoMove
  // ---------------------------------------------------------------------------

  function EntryTypeOf(k: MoveKind): EntryType {
    match k
    case MoveK => MoveEntry
    case CaptureK => CaptureEntry
  }

  /**
   * The entry `movePiece` appends, or the error it throws, in the order the
   * action checks: the four form fields, the game, the piece (thrown by
   * `getAvailableMoves`), then the destination. `playerId` is only checked to
   * be non-empty.
   */
  function MoveResult(games: set<string>, log: seq<Entry>, g: string, from: string, to: string,
                      playerId: string): Result<Entry, ActionError>
  {
    if g == "" then Err(InvalidGameId)
    else if from == "" then Err(InvalidFrom)
    else if to == "" then Err(InvalidTo)
    else if playerId == "" then Err(InvalidPlayerId)
    else match GameDataOf(games, log, g)
      case None => Err(GameNotFound)
      case Some(data) =>
        match AvailableMovesResult(games, log, g, from)
        case Err(e) => Err(e)
        case Ok(moves) =>
          if from !in data.board || to !in moves then Err(InvalidMove)
          else
            var piece := data.board[from];
            Ok(Entry(g, EntryTypeOf(moves[to]), piece.player, piece.piece, piece.pieceId, from, to, true))
  }

  /** An entry `undoMove` may deactivate: active, of the game, not `init`. */
  predicate Undoable(e: Entry, g: string) {
    e.active && e.gameId == g && e.etype != Init
  }

  /** The most recent undoable entry of game `g`. */
  function LastUndoable(log: seq<Entry>, g: string): (r: Option<nat>)
    ensures r.Some? ==>
      && r.value < |log| && Undoable(log[r.value], g)
      && forall j :: r.value < j < |log| ==> !Undoable(log[j], g)
    ensures r.None? ==> forall j :: 0 <= j < |log| ==> !Undoable(log[j], g)
  {
    if log == [] then None
    else if Undoable(log[|log| - 1], g) then Some(|log| - 1)
    else LastUndoable(log[..|log| - 1], g)
  }

  /** The log after `undoMove(g)`. */
  function UndoLog(log: seq<Entry>, g: string): seq<Entry> {
    if g == "" then log
    else match LastUndoable(log, g)
      case None => log
      case Some(i) => log[i := log[i].(active := false)]
  }

  /** The `forEach` callback of `queryGameData`: updates the board and the scores for one entry. */
  method ReplayMove(board: ServerBoard, scores: map<Player, int>, move: Entry)
    returns (board': ServerBoard, scores': map<Player, int>)
    ensures Replayed(board', scores') == ReplayEntry(Replayed(board, scores), move)
  {
    board', scores' := board, scores;
    if move.etype == MoveEntry {
      board' := if move.from in board' then board'[move.to := board'[move.from]] else board' - {move.to};
      board' := board' - {move.from};
    } else if move.etype == CaptureEntry {
      var finalPosition := Landing(move.from, move.to);
      if |finalPosition| > 0 {
        board' := if move.from in board' then board'[finalPosition := board'[move.from]] else board' - {finalPosition};
        board' := board' - {move.from};
        board' := board' - {move.to};
        scores' := scores'[move.player := ScoreOf(scores', move.player) + 1];
      }
    }
  }

  lemma OffersPrefix(board: ServerBoard, piece: PlayerPiece, iCol: int, iRow: int,
                     tests: seq<(string, Offset)>, i: nat)
    requires i < |tests|
    ensures Offers(board, piece, iCol, iRow, tests[..i + 1]) ==
      OfferAt(board, piece, iCol, iRow, tests[i], Offers(board, piece, iCol, iRow, tests[..i]))
  {
    assert tests[..i + 1][..i] == tests[..i];
  }

  /** The `forEach` callback of `getAvailableMoves`: offers one test position or leaves the moves as they are. */
  method OfferMove(board: ServerBoard, piece: PlayerPiece, iCol: int, iRow: int,
                   t: (string, Offset), availableMoves: AvailableMoves)
    returns (availableMoves': AvailableMoves)
    ensures availableMoves' == OfferAt(board, piece, iCol, iRow, t, availableMoves)
  {
    availableMoves' := availableMoves;
    var (testPosition, o) := t;
    if testPosition in board {
      if board[testPosition].player != piece.player {
        var endingPosition := Ending(iCol, iRow, o);
        if |endingPosition| > 0 && endingPosition !in board {
          availableMoves' := availableMoves'[testPosition := CaptureK];
        }
      }
    } else {
      availableMoves' := availableMoves'[testPosition := MoveK];
    }
  }

  // ---------------------------------------------------------------------------
  // The store and its actions
  // ---------------------------------------------------------------------------

  class GameStore {
    var games: set<string>
    var log: seq<Entry>

    constructor(games: set<string>, log: seq<Entry>)
      ensures this.games == games && this.log == log
    {
      this.games := games;
      this.log := log;
    }

    /** `queryGameData`: the replay of the game's active entries. */
    method QueryGameData(g: string) returns (r: Option<GameData>)
      ensures r == GameDataOf(games, log, g)
    {
      var scores := InitialScores;
      if g !in games {
        return None;
      }
      var history := ActiveHistory(log, g);
      var board := InitBoard(history);
      var moves := Moves(history);
      ghost var start := Replayed(board, scores);
      var i := 0;
      while i < |moves|
        invariant 0 <= i <= |moves|
        invariant Replayed(board, scores) == Replay(start, moves[..i])
      {
        board, scores := ReplayMove(board, scores, moves[i]);
        ReplayPrefix(start, moves, i);
        i := i + 1;
      }
      assert moves[..|moves|] == moves;
      return Some(GameData(g, board, history, CurrentPlayerOf(history), scores));
    }

    /** `getAvailableMoves`: the errors, then the `forEach` over the test positions. */
    method GetAvailableMoves(g: string, position: string) returns (r: Result<AvailableMoves, ActionError>)
      ensures r == AvailableMovesResult(games, log, g, position)
    {
      var data := QueryGameData(g);
      if data.None? {
        return Err(GameNotFound);
      }
      var board := data.value.board;
      if position !in board {
        return Err(NoPieceFound);
      }
      var piece := board[position];
      var (iCol, iRow) := IndexFromPosition(position);
      var tests := TestPositions(iCol, iRow, PieceOffsets(piece));
      var availableMoves: AvailableMoves := map[];
      var i := 0;
      while i < |tests|
        invariant 0 <= i <= |tests|
        invariant availableMoves == Offers(board, piece, iCol, iRow, tests[..i])
      {
        availableMoves := OfferMove(board, piece, iCol, iRow, tests[i], availableMoves);
        OffersPrefix(board, piece, iCol, iRow, tests, i);
        i := i + 1;
      }
      assert tests[..|tests|] == tests;
      return Ok(availableMoves);
    }

    /**
     * `movePiece` (and `capturePiece`, which is the same action): on success
     * exactly one entry is appended; on an error nothing changes.
     */
    method MovePiece(g: string, from: string, to: string, playerId: string)
      returns (r: Result<Entry, ActionError>)
      modifies this
      ensures r == MoveResult(old(games), old(log), g, from, to, playerId)
      ensures games == old(games)
      ensures log == if r.Ok? then old(log) + [r.value] else old(log)
    {
      if g == "" { return Err(InvalidGameId); }
      if from == "" { return Err(InvalidFrom); }
      if to == "" { return Err(InvalidTo); }
      if playerId == "" { return Err(InvalidPlayerId); }
      var data := QueryGameData(g);
      if data.None? {
        return Err(GameNotFound);
      }
      var piece: Option<PlayerPiece> := if from in data.value.board then Some(data.value.board[from]) else None;
      var moves := GetAvailableMoves(g, from);
      if moves.Err? {
        return Err(moves.error);
      }
      if piece.None? || to !in moves.value {
        return Err(InvalidMove);
      }
      var entry := Entry(g, EntryTypeOf(moves.value[to]), piece.value.player, piece.value.piece,
                         piece.value.pieceId, from, to, true);
      log := log + [entry];
      return Ok(entry);
    }

    /** `undoMove`: deactivate the latest undoable entry of the game, if there is one. */
    method UndoMove(g: string) returns (undone: bool)
      modifies this
      ensures games == old(games)
      ensures log == UndoLog(old(log), g)
      ensures undone <==> g != "" && LastUndoable(old(log), g).Some?
    {
      if g == "" {
        return false;
      }
      var last := LastUndoable(log, g);
      if last.None? {
        return false;
      }
      log := log[last.value := log[last.value].(active := false)];
      return true;
    }
  }
}
