/**
 * Properties of the client's board fold (src/lib/game/state.ts, `boardAtom`):
 * what one history entry does to the board, and what every board reached
 * from the initial layout satisfies.
 */
module ClientBoard {
  import opened Options
  import P = Position
  import opened ClientState

  /** The cell an applied entry leaves on its destination square. */
  function Landed(board: Board, m: Move): CellState
    requires m.from in board
  {
    match m.event
    case Some(Promote(p)) => board[m.from].(piece := p)
    case None => board[m.from]
  }

  /** An entry the fold skips leaves the board as it is. */
  lemma SkippedUnchanged(board: Board, m: Move)
    requires Skipped(board, m)
    ensures ApplyEntry(board, m) == board
  {}

  /**
   * An applied entry empties its origin, puts the moving piece (promoted when
   * the entry carries an event) on its destination, removes the captured piece
   * on a capture, and leaves every other square as it was. The destination is
   * empty afterwards only when a capture names it as its own target and no
   * event re-places the piece.
   */
  lemma ApplyEntryEffect(board: Board, m: Move)
    requires !Skipped(board, m)
    ensures var r := ApplyEntry(board, m);
      && m.from !in r
      && (IsCapture(m) && m.target.value != m.to ==> m.target.value !in r)
      && (m.to in r <==> !(IsCapture(m) && m.target.value == m.to) || m.event.Some?)
      && (m.to in r ==> r[m.to] == Landed(board, m))
      && (forall k :: k != m.from && k != m.to && !(IsCapture(m) && k == m.target.value) ==>
            (k in r <==> k in board) && (k in r ==> r[k] == board[k]))
  {}

  /** An applied entry never adds a piece: the board keeps or loses one. */
  lemma ApplyEntrySize(board: Board, m: Move)
    ensures |ApplyEntry(board, m)| <= |board|
    ensures !IsCapture(m) ==> |ApplyEntry(board, m)| == |board|
  {
    if !Skipped(board, m) {
      var fromCell := board[m.from];
      var moved := board[m.to := fromCell] - {m.from};
      assert moved.Keys == board.Keys + {m.to} - {m.from};
      assert |board.Keys + {m.to}| == |board.Keys| + 1;
      assert |moved.Keys| == |board.Keys|;
      var cleared := if IsCapture(m) then moved - {m.target.value} else moved;
      if IsCapture(m) {
        assert cleared.Keys == moved.Keys - {m.target.value};
        assert |cleared.Keys| <= |moved.Keys|;
      }
      var r := ApplyEntry(board, m);
      if m.event.Some? {
        assert m.to in moved.Keys;
        assert r.Keys <= moved.Keys;
        assert r.Keys == cleared.Keys + {m.to};
      } else {
        assert r == cleared;
      }
    }
  }

  /** Every square of the board is a valid position. */
  predicate KeysValid(board: Board) {
    forall k :: k in board ==> IsValidPosition(k)
  }

  /** Applying an entry keeps the board on the 64 squares. */
  lemma ApplyEntryKeysValid(board: Board, m: Move)
    requires KeysValid(board)
    ensures KeysValid(ApplyEntry(board, m))
  {}

  /** The sixteen starting squares are all valid positions. */
  lemma InitialBoardKeysValid()
    ensures KeysValid(InitialBoard)
  {
    forall k | k in InitialBoard
      ensures IsValidPosition(k)
    {
      P.CharsArePosition(k);
    }
  }

  /**
   * Every board the fold reaches from the initial layout lies on the 64 squares
   * and holds no more pieces than the initial layout.
   */
  lemma {:induction false} FoldInvariant(history: seq<Move>)
    ensures KeysValid(BoardOf(history)) && |BoardOf(history)| <= |InitialBoard|
  {
    if history == [] {
      InitialBoardKeysValid();
    } else {
      var prefix := history[..|history| - 1];
      FoldInvariant(prefix);
      ApplyEntryKeysValid(BoardOf(prefix), history[|history| - 1]);
      ApplyEntrySize(BoardOf(prefix), history[|history| - 1]);
    }
  }

  /** Folding a concatenation folds the second part into the board of the first. */
  lemma {:induction false} FoldConcat(board: Board, a: seq<Move>, b: seq<Move>)
    ensures Fold(board, a + b) == Fold(Fold(board, a), b)
  {
    if b == [] {
      assert a + b == a;
    } else {
      assert (a + b)[..|a + b| - 1] == a + b[..|b| - 1];
      FoldConcat(board, a, b[..|b| - 1]);
    }
  }

  /** A step keeps the number of pieces; only a capture can remove one. */
  lemma {:induction false} StepsKeepPieces(history: seq<Move>)
    requires forall i :: 0 <= i < |history| ==> !IsCapture(history[i])
    ensures |BoardOf(history)| == |InitialBoard|
  {
    if history != [] {
      var prefix := history[..|history| - 1];
      StepsKeepPieces(prefix);
      ApplyEntrySize(BoardOf(prefix), history[|history| - 1]);
    }
  }
}
