/**
 * Properties of the client's move generator (src/lib/game/state.ts,
 * `availableMovesAtom`): the squares one offset reaches, which moves one offset
 * offers, which offsets a piece may use, and the mandatory-capture pass.
 */
module ClientMoves {
  import opened Options
  import opened Seqs
  import P = Position
  import opened ClientState

  /**
   * The square `k` diagonal steps along `o` from `position`: present exactly
   * when the shifted indices are on the board, and then the label of those
   * indices.
   */
  lemma SquareIndices(position: string, o: MoveOffset, k: int)
    ensures var c := P.ToIndex(position).0 + o.dCol * k;
      var r := P.ToIndex(position).1 + o.dRow * k;
      && (Square(position, o, k).Some? <==> 0 <= c < 8 && 0 <= r < 8)
      && (Square(position, o, k).Some? ==> Square(position, o, k).value == P.Cols[c] + P.Rows[r])
  {
    var c := P.ToIndex(position).0 + o.dCol * k;
    var r := P.ToIndex(position).1 + o.dRow * k;
    P.ToPositionIndices(c, r);
    if 0 <= c < 8 && 0 <= r < 8 {
      P.LabelIsPosition(c, r);
    }
  }

  /** `toIndex` of the square `k` steps along `o` gives back the shifted indices. */
  lemma SquareIndex(position: string, o: MoveOffset, k: int)
    requires Square(position, o, k).Some?
    ensures P.ToIndex(Square(position, o, k).value)
      == (P.ToIndex(position).0 + o.dCol * k, P.ToIndex(position).1 + o.dRow * k)
  {
    SquareIndices(position, o, k);
    P.IndexRoundTrip(P.ToIndex(position).0 + o.dCol * k, P.ToIndex(position).1 + o.dRow * k);
  }

  /** The move a step along `o` offers. */
  function StepMove(position: string, cell: CellState, to: string): Move {
    Move(cell.player, None, Step, false, cell.piece, position, to, None)
  }

  /** The move a hop over `target` offers. */
  function HopMove(position: string, cell: CellState, to: string, target: string): Move {
    Move(cell.player, None, Capture, false, cell.piece, position, to, Some(target))
  }

  /**
   * What one offset offers, case by case: a step onto an empty neighbour, a hop
   * over an opposing neighbour onto an empty landing square, and nothing when
   * the neighbour is off the board, holds a friendly piece, or is an opponent
   * whose landing square is off the board or occupied.
   */
  lemma CandidateCases(board: Board, position: string, cell: CellState, o: MoveOffset)
    ensures var n, l := Square(position, o, 1), Square(position, o, 2);
      var c := Candidate(board, position, cell, o);
      && (n.None? ==> c.None?)
      && (n.Some? && n.value !in board ==> c == Some(StepMove(position, cell, n.value)))
      && (n.Some? && n.value in board && board[n.value].player == cell.player ==> c.None?)
      && (n.Some? && n.value in board && board[n.value].player != cell.player ==>
            c == if l.Some? && l.value !in board then Some(HopMove(position, cell, l.value, n.value)) else None)
  {}

  /**
   * Every candidate belongs to the piece on `position`, lands on an empty
   * valid square, and is either a step to the neighbour or a hop over an
   * opposing neighbour onto the square beyond it.
   */
  lemma CandidateSound(board: Board, position: string, cell: CellState, o: MoveOffset)
    requires Candidate(board, position, cell, o).Some?
    ensures var m := Candidate(board, position, cell, o).value;
      && m.player == cell.player && m.piece == cell.piece && m.from == position
      && !m.hidden && m.event.None?
      && IsValidPosition(m.to) && m.to !in board
      && (m.mtype == Step ==> m.target.None? && Square(position, o, 1) == Some(m.to))
      && (m.mtype == Capture ==>
            && m.target.Some? && Square(position, o, 1) == m.target
            && m.target.value in board && board[m.target.value].player != cell.player
            && Square(position, o, 2) == Some(m.to))
  {}

  /** The candidates of a list of offsets are exactly what its offsets offer. */
  lemma {:induction false} CandidatesMembers(board: Board, position: string, cell: CellState, offsets: seq<MoveOffset>, m: Move)
    ensures m in Candidates(board, position, cell, offsets)
      <==> exists o :: o in offsets && Candidate(board, position, cell, o) == Some(m)
  {
    if offsets != [] {
      var front := offsets[..|offsets| - 1];
      var last := offsets[|offsets| - 1];
      var c := Candidate(board, position, cell, last);
      CandidatesMembers(board, position, cell, front, m);
      assert Candidates(board, position, cell, offsets)
        == Candidates(board, position, cell, front) + (if c.Some? then [c.value] else []);
      if m in Candidates(board, position, cell, offsets) && m !in Candidates(board, position, cell, front) {
        assert c == Some(m) && last in offsets;
      }
      if exists o :: o in offsets && Candidate(board, position, cell, o) == Some(m) {
        var o :| o in offsets && Candidate(board, position, cell, o) == Some(m);
        if o != last {
          InFront(offsets, o);
        }
      }
    }
  }

  /** Each offset offers at most one move, so a piece has at most as many candidates as offsets. */
  lemma {:induction false} CandidatesLength(board: Board, position: string, cell: CellState, offsets: seq<MoveOffset>)
    ensures |Candidates(board, position, cell, offsets)| <= |offsets|
  {
    if offsets != [] {
      CandidatesLength(board, position, cell, offsets[..|offsets| - 1]);
    }
  }

  /** Filtering a list that starts with a kept offset keeps it in front. */
  lemma FilterKeeps(offsets: seq<MoveOffset>, direction: Direction)
    requires offsets != [] && (offsets[0].direction == All || offsets[0].direction == direction)
    ensures FilterDirection(offsets, direction) == [offsets[0]] + FilterDirection(offsets[1..], direction)
  {}

  /** Filtering a list that starts with a dropped offset drops it. */
  lemma FilterDrops(offsets: seq<MoveOffset>, direction: Direction)
    requires offsets != [] && offsets[0].direction != All && offsets[0].direction != direction
    ensures FilterDirection(offsets, direction) == FilterDirection(offsets[1..], direction)
  {}

  /** A dame may use all four diagonals, in configuration order. */
  lemma DameOffsets(player: Player)
    ensures AllowedOffsets(Dame, player) == PieceOffsets(Dame)
  {
    var os := PieceOffsets(Dame);
    var d := PlayerDirection(player);
    FilterKeeps(os[3..], d);
    assert os[3..][1..] == [];
    FilterKeeps(os[2..], d);
    assert os[2..][1..] == os[3..];
    FilterKeeps(os[1..], d);
    assert os[1..][1..] == os[2..];
    FilterKeeps(os, d);
  }

  /** A red peon may use only the two offsets that increase the column. */
  lemma RedPeonOffsets()
    ensures AllowedOffsets(Peon, Red) == [MoveOffset(LtoR, 1, 1), MoveOffset(LtoR, 1, -1)]
  {
    var os := PieceOffsets(Peon);
    FilterDrops(os[3..], LtoR);
    assert os[3..][1..] == [];
    FilterDrops(os[2..], LtoR);
    assert os[2..][1..] == os[3..];
    FilterKeeps(os[1..], LtoR);
    assert os[1..][1..] == os[2..];
    FilterKeeps(os, LtoR);
  }

  /** A black peon may use only the two offsets that decrease the column. */
  lemma BlackPeonOffsets()
    ensures AllowedOffsets(Peon, Black) == [MoveOffset(RtoL, -1, 1), MoveOffset(RtoL, -1, -1)]
  {
    var os := PieceOffsets(Peon);
    FilterKeeps(os[3..], RtoL);
    assert os[3..][1..] == [];
    FilterKeeps(os[2..], RtoL);
    assert os[2..][1..] == os[3..];
    FilterDrops(os[1..], RtoL);
    assert os[1..][1..] == os[2..];
    FilterDrops(os, RtoL);
  }

  /** The column step of a peon of `player`: red advances to higher columns. */
  function Forward(player: Player): int {
    if player == Red then 1 else -1
  }

  /** Every usable offset is one diagonal step, and a peon's column step is its player's. */
  lemma AllowedOffsetsDiagonal(piece: Piece, player: Player, o: MoveOffset)
    requires o in AllowedOffsets(piece, player)
    ensures (o.dCol == 1 || o.dCol == -1) && (o.dRow == 1 || o.dRow == -1)
    ensures piece == Peon ==> o.dCol == Forward(player)
  {
    assert o in PieceOffsets(piece) && (o.direction == All || o.direction == PlayerDirection(player));
    TableOffsetDiagonal(piece, player, o);
  }

  /** The same, read off the offset table and the player's direction. */
  lemma TableOffsetDiagonal(piece: Piece, player: Player, o: MoveOffset)
    requires o in PieceOffsets(piece) && (o.direction == All || o.direction == PlayerDirection(player))
    ensures (o.dCol == 1 || o.dCol == -1) && (o.dRow == 1 || o.dRow == -1)
    ensures piece == Peon ==> o.dCol == Forward(player)
  {}

  /**
   * Every move the first loop records for the piece on `position` is offered by
   * one of its usable offsets, so it is sound in the sense of `CandidateSound`.
   */
  lemma RawMoveFromOffset(board: Board, position: string, m: Move)
    requires position in board && m in RawMoves(board, position)
    ensures exists o ::
      o in AllowedOffsets(board[position].piece, board[position].player)
      && Candidate(board, position, board[position], o) == Some(m)
  {
    var cell := board[position];
    CandidatesMembers(board, position, cell, AllowedOffsets(cell.piece, cell.player), m);
  }

  // ---------------------------------------------------------------------------
  // The mandatory-capture pass
  // ---------------------------------------------------------------------------

  /** The generator lists moves for exactly the occupied squares. */
  lemma AvailableMovesKeys(board: Board)
    ensures AvailableMoves(board).Keys == board.Keys
  {}

  /**
   * The second loop's condition reduces to the player's flag: a piece with a
   * capture of its own already sets it. A player who can capture somewhere is
   * offered only the captures of each piece; otherwise every candidate stays.
   */
  lemma MandatoryRule(board: Board, position: string)
    requires position in board
    ensures AvailableMoves(board)[position]
      == if CanCapture(board, board[position].player) then OnlyCaptures(RawMoves(board, position))
         else RawMoves(board, position)
  {
    var raw := RawMap(board);
    assert raw[position] == RawMoves(board, position);
    if HasCapture(raw[position]) {
      assert PlayerCanCapture(board, raw, board[position].player);
    }
  }

  /** When a player can capture, every move offered to any of its pieces is a capture. */
  lemma CaptureIsMandatory(board: Board, position: string, m: Move)
    requires position in board && CanCapture(board, board[position].player)
    requires m in AvailableMoves(board)[position]
    ensures m.mtype == Capture && m in RawMoves(board, position)
  {
    MandatoryRule(board, position);
  }

  /** A capture candidate is always offered. */
  lemma CapturesKept(board: Board, position: string, m: Move)
    requires position in board && m in RawMoves(board, position) && m.mtype == Capture
    ensures m in AvailableMoves(board)[position]
  {
    MandatoryRule(board, position);
  }

  /** Every offered move is a candidate of its piece. */
  lemma OfferedAreCandidates(board: Board, position: string, m: Move)
    requires position in board && m in AvailableMoves(board)[position]
    ensures m in RawMoves(board, position)
  {
    MandatoryRule(board, position);
  }

  /** Without a capture anywhere for its player, a piece keeps all its candidates. */
  lemma NoCaptureKeepsAll(board: Board, position: string)
    requires position in board && !CanCapture(board, board[position].player)
    ensures AvailableMoves(board)[position] == RawMoves(board, position)
  {
    MandatoryRule(board, position);
  }

  /** A player can capture exactly when some piece of theirs is offered a capture. */
  lemma CanCaptureOffered(board: Board, player: Player)
    ensures CanCapture(board, player) <==>
      exists p, m :: p in board && board[p].player == player && m in AvailableMoves(board)[p] && m.mtype == Capture
  {
    if CanCapture(board, player) {
      var raw := RawMap(board);
      var p :| p in raw && p in board && board[p].player == player && HasCapture(raw[p]);
      var m: Move :| m in raw[p] && m.mtype == Capture;
      CapturesKept(board, p, m);
    }
    if exists p, m :: p in board && board[p].player == player && m in AvailableMoves(board)[p] && m.mtype == Capture {
      var p, m :| p in board && board[p].player == player && m in AvailableMoves(board)[p] && m.mtype == Capture;
      OfferedAreCandidates(board, p, m);
      assert RawMap(board)[p] == RawMoves(board, p);
    }
  }

  // ---------------------------------------------------------------------------
  // Geometry of the offered moves
  // ---------------------------------------------------------------------------

  /**
   * The candidate of offset `o` moves once along `o` for a step and twice for
   * a hop, whose target is once along `o` from the origin.
   */
  lemma CandidateGeometry(board: Board, position: string, cell: CellState, o: MoveOffset)
    requires Candidate(board, position, cell, o).Some?
    ensures var m := Candidate(board, position, cell, o).value;
      var c, r := P.ToIndex(position).0, P.ToIndex(position).1;
      && (m.mtype == Step ==> P.ToIndex(m.to) == (c + o.dCol, r + o.dRow))
      && (m.mtype == Capture ==>
            && P.ToIndex(m.to) == (c + o.dCol * 2, r + o.dRow * 2)
            && m.target.Some? && P.ToIndex(m.target.value) == (c + o.dCol, r + o.dRow))
  {
    var m := Candidate(board, position, cell, o).value;
    CandidateSound(board, position, cell, o);
    NeighbourIndex(position, o);
    if m.mtype == Capture {
      HopIndex(position, o);
    }
  }

  /** `toIndex` of the square two steps along `o` is two steps from `position`'s indices. */
  lemma HopIndex(position: string, o: MoveOffset)
    requires Square(position, o, 2).Some?
    ensures P.ToIndex(Square(position, o, 2).value) == (P.ToIndex(position).0 + o.dCol * 2, P.ToIndex(position).1 + o.dRow * 2)
  {
    var c, r := P.ToIndex(position).0, P.ToIndex(position).1;
    P.ToPositionIndices(c + o.dCol * 2, r + o.dRow * 2);
    P.IndexRoundTrip(c + o.dCol * 2, r + o.dRow * 2);
  }

  /** `toIndex` of the square one step along `o` is one step from `position`'s indices. */
  lemma NeighbourIndex(position: string, o: MoveOffset)
    requires Square(position, o, 1).Some?
    ensures P.ToIndex(Square(position, o, 1).value) == (P.ToIndex(position).0 + o.dCol, P.ToIndex(position).1 + o.dRow)
  {
    var c, r := P.ToIndex(position).0, P.ToIndex(position).1;
    assert o.dCol * 1 == o.dCol && o.dRow * 1 == o.dRow;
    P.ToPositionIndices(c + o.dCol, r + o.dRow);
    P.IndexRoundTrip(c + o.dCol, r + o.dRow);
  }

  /**
   * Every offered move goes diagonally from its piece: one square for a step,
   * two for a capture, whose target is the square in between; a peon always
   * moves toward its player's side of advance. (Indices as `toIndex` gives
   * them.)
   */
  lemma OfferedGeometry(board: Board, position: string, m: Move)
    requires position in board && m in AvailableMoves(board)[position]
    ensures var k := if m.mtype == Step then 1 else 2;
      var dc := P.ToIndex(m.to).0 - P.ToIndex(position).0;
      var dr := P.ToIndex(m.to).1 - P.ToIndex(position).1;
      && (dc == k || dc == -k) && (dr == k || dr == -k)
      && (board[position].piece == Peon ==> dc == k * Forward(board[position].player))
      && (m.mtype == Capture ==>
            && m.target.Some?
            && 2 * P.ToIndex(m.target.value).0 == P.ToIndex(position).0 + P.ToIndex(m.to).0
            && 2 * P.ToIndex(m.target.value).1 == P.ToIndex(position).1 + P.ToIndex(m.to).1)
  {
    var cell := board[position];
    OfferedAreCandidates(board, position, m);
    RawMoveFromOffset(board, position, m);
    var o :| o in AllowedOffsets(cell.piece, cell.player) && Candidate(board, position, cell, o) == Some(m);
    CandidateGeometry(board, position, cell, o);
    AllowedOffsetsDiagonal(cell.piece, cell.player, o);
  }
}
