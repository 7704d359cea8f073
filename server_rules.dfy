/**
 * Properties of the server's rules engine (src/lib/game/actions.ts): what the
 * replay of a game's log computes, which moves are offered, and what the
 * move and undo actions do to the log.
 */
module ServerRules {
  import opened Options
  import opened Common
  import opened Actions

  function Opponent(p: Player): Player {
    if p == Red then Black else Red
  }

  // ---------------------------------------------------------------------------
  // Which entries are replayed
  // ---------------------------------------------------------------------------

  /** Appending an entry adds it to the game's history exactly when it is active and of that game. */
  lemma ActiveHistorySnoc(log: seq<Entry>, e: Entry, g: string)
    ensures ActiveHistory(log + [e], g)
      == ActiveHistory(log, g) + (if e.active && e.gameId == g then [e] else [])
  {
    assert (log + [e])[..|log|] == log;
  }

  /** An inactive entry, or an entry of another game, changes nothing `queryGameData` returns. */
  lemma IgnoredEntry(games: set<string>, log: seq<Entry>, e: Entry, g: string)
    requires !e.active || e.gameId != g
    ensures GameDataOf(games, log + [e], g) == GameDataOf(games, log, g)
  {
    ActiveHistorySnoc(log, e, g);
    assert ActiveHistory(log, g) + [] == ActiveHistory(log, g);
  }

  /** Replacing an entry by one that is equally invisible to game `g` does not change `g`'s history. */
  lemma {:induction false} ActiveHistoryUpdate(log: seq<Entry>, i: nat, x: Entry, g: string)
    requires i < |log|
    requires !(log[i].active && log[i].gameId == g) && !(x.active && x.gameId == g)
    ensures ActiveHistory(log[i := x], g) == ActiveHistory(log, g)
  {
    var n := |log| - 1;
    var updated := log[i := x];
    assert updated[..n] + [updated[n]] == updated;
    assert log[..n] + [log[n]] == log;
    if i == n {
      assert updated[..n] == log[..n];
      ActiveHistorySnoc(log[..n], log[n], g);
      ActiveHistorySnoc(log[..n], x, g);
      assert ActiveHistory(log[..n], g) + [] == ActiveHistory(log[..n], g);
    } else {
      assert updated[..n] == log[..n][i := x];
      ActiveHistoryUpdate(log[..n], i, x, g);
      ActiveHistorySnoc(log[..n], log[n], g);
      ActiveHistorySnoc(updated[..n], log[n], g);
    }
  }

  /** The `init` entries seed the board keyed by their destination: a square holds a piece exactly when one names it. */
  lemma {:induction false} InitBoardKeys(h: seq<Entry>, k: string)
    ensures k in InitBoard(h) <==> exists j :: 0 <= j < |h| && h[j].etype == Init && h[j].to == k
  {
    if h != [] {
      var n := |h| - 1;
      InitBoardKeys(h[..n], k);
      assert forall j :: 0 <= j < n ==> h[..n][j] == h[j];
    }
  }

  /** The piece on a seeded square is that of the last `init` entry naming it. */
  lemma {:induction false} InitBoardLastWins(h: seq<Entry>, k: string)
    requires k in InitBoard(h)
    ensures exists j ::
      && 0 <= j < |h| && h[j].etype == Init && h[j].to == k && InitBoard(h)[k] == PieceOf(h[j])
      && forall j' :: j < j' < |h| ==> !(h[j'].etype == Init && h[j'].to == k)
  {
    var n := |h| - 1;
    if h[n].etype == Init && h[n].to == k {
      assert InitBoard(h)[k] == PieceOf(h[n]);
    } else {
      var prefix := h[..n];
      assert k in InitBoard(prefix) && InitBoard(h)[k] == InitBoard(prefix)[k];
      InitBoardLastWins(prefix, k);
      var j :| 0 <= j < n && prefix[j].etype == Init && prefix[j].to == k
        && InitBoard(prefix)[k] == PieceOf(prefix[j])
        && forall j' :: j < j' < n ==> !(prefix[j'].etype == Init && prefix[j'].to == k);
      assert h[j] == prefix[j];
      forall j' | j < j' < |h|
        ensures !(h[j'].etype == Init && h[j'].to == k)
      {
        if j' < n {
          assert h[j'] == prefix[j'];
        }
      }
    }
  }

  // ---------------------------------------------------------------------------
  // What a replayed entry does
  // ---------------------------------------------------------------------------

  /** `toPosition` never gives an empty label, so the `if (finalPosition)` guard always holds. */
  lemma LandingTruthy(from: string, to: string)
    ensures |Landing(from, to)| >= 2
  {
    BeyondTruthy(IndexFromPosition(from), IndexFromPosition(to));
  }

  lemma BeyondTruthy(iFrom: (int, int), iTo: (int, int))
    ensures |Beyond(iFrom, iTo)| >= 2
  {
    ToPositionTruthy(2 * iTo.0 - iFrom.0, 2 * iTo.1 - iFrom.1);
  }

  /**
   * `set(to, get(from))` then `delete(from)`: `from` is emptied, `to` holds
   * what `from` held, every other square is unchanged.
   */
  lemma RelocateEffect(board: ServerBoard, from: string, to: string)
    ensures from !in Relocate(board, from, to)
    ensures to != from ==> (to in Relocate(board, from, to) <==> from in board)
    ensures to != from && from in board ==> Relocate(board, from, to)[to] == board[from]
    ensures forall k :: k != from && k != to ==>
      (k in Relocate(board, from, to) <==> k in board)
      && (k in Relocate(board, from, to) ==> Relocate(board, from, to)[k] == board[k])
  {}

  /**
   * A `move` entry puts the piece of `from` on `to` and empties `from`; the
   * scores and every other square are unchanged.
   */
  lemma MoveEntryEffect(s: Replayed, e: Entry)
    requires e.etype == MoveEntry
    ensures ReplayEntry(s, e).scores == s.scores
    ensures e.from !in ReplayEntry(s, e).board
    ensures e.to != e.from ==> (e.to in ReplayEntry(s, e).board <==> e.from in s.board)
    ensures e.to != e.from && e.from in s.board ==> ReplayEntry(s, e).board[e.to] == s.board[e.from]
    ensures forall k :: k != e.from && k != e.to ==>
      (k in ReplayEntry(s, e).board <==> k in s.board)
      && (k in ReplayEntry(s, e).board ==> ReplayEntry(s, e).board[k] == s.board[k])
  {
    RelocateEffect(s.board, e.from, e.to);
  }

  /**
   * A `capture` entry names the jumped square as `to`: the piece of `from`
   * lands beyond it, `from` and the jumped square are emptied, the capturing
   * player scores one, and nothing else changes.
   */
  lemma CaptureEntryEffect(s: Replayed, e: Entry)
    requires e.etype == CaptureEntry
    ensures var r := ReplayEntry(s, e).board;
      e.from !in r && e.to !in r
    ensures var r := ReplayEntry(s, e).board; var landing := Landing(e.from, e.to);
      landing != e.from && landing != e.to ==> (landing in r <==> e.from in s.board)
    ensures var r := ReplayEntry(s, e).board; var landing := Landing(e.from, e.to);
      landing != e.from && landing != e.to && e.from in s.board ==> r[landing] == s.board[e.from]
    ensures var r := ReplayEntry(s, e).board;
      forall k :: k != e.from && k != e.to && k != Landing(e.from, e.to) ==>
        (k in r <==> k in s.board) && (k in r ==> r[k] == s.board[k])
    ensures ReplayEntry(s, e).scores == s.scores[e.player := ScoreOf(s.scores, e.player) + 1]
  {
    var landing := Landing(e.from, e.to);
    LandingTruthy(e.from, e.to);
    var moved := Relocate(s.board, e.from, landing);
    RelocateEffect(s.board, e.from, landing);
    assert ReplayEntry(s, e).board == moved - {e.to};
  }

  // ---------------------------------------------------------------------------
  // Scores and turn
  // ---------------------------------------------------------------------------

  /** Each replayed capture adds one to its player's score and nothing else does. */
  lemma {:induction false} ScoresCount(s: Replayed, moves: seq<Entry>, p: Player)
    ensures ScoreOf(Replay(s, moves).scores, p) == ScoreOf(s.scores, p) + CapturesBy(moves, p)
    ensures s.scores.Keys <= Replay(s, moves).scores.Keys
  {
    if moves != [] {
      var n := |moves| - 1;
      var prev := Replay(s, moves[..n]);
      ScoresCount(s, moves[..n], p);
      EntryScore(prev, moves[n], p);
      assert Replay(s, moves) == ReplayEntry(prev, moves[n]);
    }
  }

  /** One replayed entry adds one to the score of the player of a capture, and keeps every score key. */
  lemma EntryScore(s: Replayed, e: Entry, p: Player)
    ensures ScoreOf(ReplayEntry(s, e).scores, p)
      == ScoreOf(s.scores, p) + (if e.etype == CaptureEntry && e.player == p then 1 else 0)
    ensures s.scores.Keys <= ReplayEntry(s, e).scores.Keys
  {
    if e.etype == CaptureEntry {
      CaptureEntryEffect(s, e);
    } else if e.etype == MoveEntry {
      MoveEntryEffect(s, e);
    }
  }

  /** The counts of a history with one more entry. */
  lemma CountsSnoc(h: seq<Entry>, e: Entry, p: Player, t: EntryType)
    ensures CapturesBy(h + [e], p) == CapturesBy(h, p) + (if e.etype == CaptureEntry && e.player == p then 1 else 0)
    ensures CountType(h + [e], t) == CountType(h, t) + (if e.etype == t then 1 else 0)
  {
    assert (h + [e])[..|h|] == h;
  }

  /** An entry other than `init` is replayed after the entries before it. */
  lemma HistorySnoc(h: seq<Entry>, e: Entry)
    requires e.etype != Init
    ensures InitBoard(h + [e]) == InitBoard(h)
    ensures Moves(h + [e]) == Moves(h) + [e]
  {
    assert (h + [e])[..|h|] == h;
  }

  lemma ReplaySnoc(s: Replayed, moves: seq<Entry>, e: Entry)
    ensures Replay(s, moves + [e]) == ReplayEntry(Replay(s, moves), e)
  {
    assert (moves + [e])[..|moves|] == moves;
  }

  /** Filtering out the `init` entries keeps every capture of each player... */
  lemma {:induction false} MovesKeepCaptures(h: seq<Entry>, p: Player)
    ensures CapturesBy(Moves(h), p) == CapturesBy(h, p)
  {
    if h != [] {
      var n := |h| - 1;
      MovesKeepCaptures(h[..n], p);
      if h[n].etype != Init {
        CountsSnoc(Moves(h[..n]), h[n], p, CaptureEntry);
      } else {
        assert Moves(h) == Moves(h[..n]) + [];
        assert Moves(h[..n]) + [] == Moves(h[..n]);
      }
    }
  }

  /** ...and every entry of each other type. */
  lemma {:induction false} MovesKeepCount(h: seq<Entry>, t: EntryType)
    requires t != Init
    ensures CountType(Moves(h), t) == CountType(h, t)
  {
    if h != [] {
      var n := |h| - 1;
      MovesKeepCount(h[..n], t);
      if h[n].etype != Init {
        CountsSnoc(Moves(h[..n]), h[n], Red, t);
      } else {
        assert Moves(h) == Moves(h[..n]) + [];
        assert Moves(h[..n]) + [] == Moves(h[..n]);
      }
    }
  }

  /** Every capture belongs to one of the two players. */
  lemma {:induction false} CapturesSplit(h: seq<Entry>)
    ensures CapturesBy(h, Red) + CapturesBy(h, Black) == CountType(h, CaptureEntry)
  {
    if h != [] {
      CapturesSplit(h[..|h| - 1]);
    }
  }

  /**
   * The scores of a game start at zero for both players; each player's score
   * is its number of active capture entries, and the two add up to the
   * number of active captures.
   */
  lemma GameScores(games: set<string>, log: seq<Entry>, g: string, p: Player)
    requires g in games
    ensures var d := GameDataOf(games, log, g).value;
      && d.scores.Keys == {Red, Black}
      && d.scores[p] == CapturesBy(d.history, p)
      && d.scores[Red] + d.scores[Black] == CountType(d.history, CaptureEntry)
  {
    var h := ActiveHistory(log, g);
    var start := Replayed(InitBoard(h), InitialScores);
    ScoresCount(start, Moves(h), p);
    ScoresCount(start, Moves(h), Red);
    ScoresCount(start, Moves(h), Black);
    MovesKeepCaptures(h, p);
    MovesKeepCaptures(h, Red);
    MovesKeepCaptures(h, Black);
    MovesKeepCount(h, CaptureEntry);
    CapturesSplit(h);
    var keys := Replay(start, Moves(h)).scores.Keys;
    assert Red in InitialScores && Black in InitialScores;
    forall q: Player
      ensures q in keys <==> q in {Red, Black}
    {
      if q == Red {} else {}
    }
  }

  /** A `move` entry passes the turn; a `capture` or `init` entry leaves it where it is. */
  lemma TurnParity(h: seq<Entry>, e: Entry)
    ensures CurrentPlayerOf(h + [e])
      == if e.etype == MoveEntry then Opponent(CurrentPlayerOf(h)) else CurrentPlayerOf(h)
  {
    CountsSnoc(h, e, Red, MoveEntry);
  }

  /** With an empty history red has the turn. */
  lemma RedOpens()
    ensures CurrentPlayerOf([]) == Red
  {}

  // ---------------------------------------------------------------------------
  // getAvailableMoves
  // ---------------------------------------------------------------------------

  /** Red pawns look along `+1` columns, black pawns along `-1`, kings along all four diagonals. */
  lemma PieceOffsetsTable(piece: PlayerPiece)
    ensures piece.piece == King ==>
      PieceOffsets(piece) == [Offset(1, 1), Offset(1, -1), Offset(-1, 1), Offset(-1, -1)]
    ensures piece.piece == Pawn && piece.player == Red ==>
      PieceOffsets(piece) == [Offset(1, 1), Offset(1, -1)]
    ensures piece.piece == Pawn && piece.player == Black ==>
      PieceOffsets(piece) == [Offset(-1, 1), Offset(-1, -1)]
  {}

  /** No neighbour is dropped: `toPosition` is always truthy. */
  lemma {:induction false} TestPositionsAll(iCol: int, iRow: int, offsets: seq<Offset>)
    ensures |TestPositions(iCol, iRow, offsets)| == |offsets|
    ensures forall i :: 0 <= i < |offsets| ==>
      TestPositions(iCol, iRow, offsets)[i] == (Neighbour(iCol, iRow, offsets[i]), offsets[i])
  {
    if offsets != [] {
      var rest := TestPositions(iCol, iRow, offsets[1..]);
      TestPositionsCons(iCol, iRow, offsets);
      TestPositionsAll(iCol, iRow, offsets[1..]);
      forall i | 0 <= i < |offsets|
        ensures TestPositions(iCol, iRow, offsets)[i] == (Neighbour(iCol, iRow, offsets[i]), offsets[i])
      {
        if i > 0 {
          assert offsets[1..][i - 1] == offsets[i];
          assert TestPositions(iCol, iRow, offsets)[i] == rest[i - 1];
        }
      }
    }
  }

  /** A non-empty offset list keeps its first neighbour, which is always truthy. */
  lemma TestPositionsCons(iCol: int, iRow: int, offsets: seq<Offset>)
    requires offsets != []
    ensures TestPositions(iCol, iRow, offsets) ==
      [(Neighbour(iCol, iRow, offsets[0]), offsets[0])] + TestPositions(iCol, iRow, offsets[1..])
  {
    ToPositionTruthy(iCol + offsets[0].dCol, iRow + offsets[0].dRow);
  }

  /** The condition under which one test position is offered. */
  predicate Offered(board: ServerBoard, piece: PlayerPiece, iCol: int, iRow: int, t: (string, Offset)) {
    t.0 !in board || (board[t.0].player != piece.player && Ending(iCol, iRow, t.1) !in board)
  }

  /**
   * The `forEach` offers a test position exactly when it is empty, or holds an
   * opponent with an empty square beyond it; an empty square is a `move` and
   * an opponent's square a `capture`, whichever offset reached it.
   */
  lemma {:induction false} OffersContents(board: ServerBoard, piece: PlayerPiece, iCol: int, iRow: int,
                                          tests: seq<(string, Offset)>, k: string)
    ensures k in Offers(board, piece, iCol, iRow, tests) <==>
      exists i :: 0 <= i < |tests| && tests[i].0 == k && Offered(board, piece, iCol, iRow, tests[i])
    ensures k in Offers(board, piece, iCol, iRow, tests) ==>
      Offers(board, piece, iCol, iRow, tests)[k] == if k in board then CaptureK else MoveK
  {
    if tests != [] {
      var n := |tests| - 1;
      var prefix := tests[..n];
      var acc := Offers(board, piece, iCol, iRow, prefix);
      OffersContents(board, piece, iCol, iRow, prefix, k);
      OfferAtEffect(board, piece, iCol, iRow, tests[n], acc, k);
      if k in Offers(board, piece, iCol, iRow, tests) {
        if k in acc {
          var i :| 0 <= i < n && prefix[i].0 == k && Offered(board, piece, iCol, iRow, prefix[i]);
          assert prefix[i] == tests[i];
        }
      }
      if exists i :: 0 <= i < |tests| && tests[i].0 == k && Offered(board, piece, iCol, iRow, tests[i]) {
        var i :| 0 <= i < |tests| && tests[i].0 == k && Offered(board, piece, iCol, iRow, tests[i]);
        if i < n {
          assert prefix[i] == tests[i];
        }
      }
    }
  }

  /** One step of the `forEach` adds its test position when it is offered, with its kind, and changes nothing else. */
  lemma OfferAtEffect(board: ServerBoard, piece: PlayerPiece, iCol: int, iRow: int,
                      t: (string, Offset), acc: AvailableMoves, k: string)
    ensures var r := OfferAt(board, piece, iCol, iRow, t, acc);
      && (k in r <==> k in acc || (t.0 == k && Offered(board, piece, iCol, iRow, t)))
      && (k in r && t.0 == k && Offered(board, piece, iCol, iRow, t) ==>
            r[k] == if k in board then CaptureK else MoveK)
      && (k in r && !(t.0 == k && Offered(board, piece, iCol, iRow, t)) ==> r[k] == acc[k])
  {
    ToPositionTruthy(iCol + t.1.dCol * 2, iRow + t.1.dRow * 2);
  }

  /**
   * The moves offered to the piece on `position`: a neighbour along one of
   * its offsets is offered when it is empty (a `move`), or holds an opponent
   * and the square two steps along the same diagonal is empty (a `capture`,
   * keyed by the jumped square). A friendly neighbour is never offered.
   */
  lemma AvailableMovesRule(board: ServerBoard, position: string, k: string)
    requires position in board
    ensures var piece := board[position];
      var (iCol, iRow) := IndexFromPosition(position);
      k in MovesFrom(board, position) <==>
        exists o :: o in PieceOffsets(piece) && Neighbour(iCol, iRow, o) == k
          && (k !in board || (board[k].player != piece.player && Ending(iCol, iRow, o) !in board))
  {
    var piece := board[position];
    var (iCol, iRow) := IndexFromPosition(position);
    OffersAlong(board, piece, iCol, iRow, PieceOffsets(piece), k);
  }

  /** The same rule for any list of offsets: a square is offered exactly when some offset reaches it and offers it. */
  lemma OffersAlong(board: ServerBoard, piece: PlayerPiece, iCol: int, iRow: int, offsets: seq<Offset>, k: string)
    ensures k in Offers(board, piece, iCol, iRow, TestPositions(iCol, iRow, offsets)) <==>
      exists o :: o in offsets && Neighbour(iCol, iRow, o) == k && Offered(board, piece, iCol, iRow, (k, o))
  {
    var tests := TestPositions(iCol, iRow, offsets);
    TestPositionsAll(iCol, iRow, offsets);
    OffersContents(board, piece, iCol, iRow, tests, k);
    if k in Offers(board, piece, iCol, iRow, tests) {
      var i :| 0 <= i < |tests| && tests[i].0 == k && Offered(board, piece, iCol, iRow, tests[i]);
      assert tests[i] == (k, offsets[i]) && offsets[i] in offsets;
    }
    if exists o :: o in offsets && Neighbour(iCol, iRow, o) == k && Offered(board, piece, iCol, iRow, (k, o)) {
      var o :| o in offsets && Neighbour(iCol, iRow, o) == k && Offered(board, piece, iCol, iRow, (k, o));
      var i :| 0 <= i < |offsets| && offsets[i] == o;
      assert tests[i] == (k, o);
    }
  }

  /** An offered square is a capture exactly when it is occupied; a friendly square is never offered. */
  lemma AvailableMovesKind(board: ServerBoard, position: string, k: string)
    requires position in board
    ensures k in MovesFrom(board, position) ==>
      MovesFrom(board, position)[k] == if k in board then CaptureK else MoveK
    ensures k in board && board[k].player == board[position].player ==> k !in MovesFrom(board, position)
  {
    var piece := board[position];
    var (iCol, iRow) := IndexFromPosition(position);
    var offsets := PieceOffsets(piece);
    var tests := TestPositions(iCol, iRow, offsets);
    OffersContents(board, piece, iCol, iRow, tests, k);
  }


  /** A test position is a square exactly when its indices are on the board, and then it has them. */
  lemma NeighbourIndices(iCol: int, iRow: int, o: Offset)
    ensures IsPosition(Neighbour(iCol, iRow, o)) <==> 0 <= iCol + o.dCol < 8 && 0 <= iRow + o.dRow < 8
    ensures IsPosition(Neighbour(iCol, iRow, o)) ==>
      IndexFromPosition(Neighbour(iCol, iRow, o)) == (iCol + o.dCol, iRow + o.dRow)
  {
    var c, r := iCol + o.dCol, iRow + o.dRow;
    assert Neighbour(iCol, iRow, o) == ToPosition(Indices(c, r));
    IndicesLabel(c, r);
  }

  /**
   * A capture offered toward an on-board jumped square lands, when replayed,
   * exactly on the ending square `getAvailableMoves` checked to be empty.
   */
  lemma CaptureLandsBeyond(position: string, o: Offset)
    requires IsPosition(Neighbour(IndexFromPosition(position).0, IndexFromPosition(position).1, o))
    ensures var (iCol, iRow) := IndexFromPosition(position);
      Landing(position, Neighbour(iCol, iRow, o)) == Ending(iCol, iRow, o)
  {
    var (iCol, iRow) := IndexFromPosition(position);
    NeighbourIndices(iCol, iRow, o);
    BeyondStep(iCol, iRow, o);
  }

  /** Beyond the neighbour along `o` is two steps along `o`. */
  lemma BeyondStep(iCol: int, iRow: int, o: Offset)
    ensures Beyond((iCol, iRow), (iCol + o.dCol, iRow + o.dRow)) == Ending(iCol, iRow, o)
  {
    assert iCol + o.dCol + (iCol + o.dCol - iCol) == iCol + o.dCol * 2;
    assert iRow + o.dRow + (iRow + o.dRow - iRow) == iRow + o.dRow * 2;
  }

  /**
   * Geometry of what is offered from a square of the board: an on-board
   * destination is one diagonal step away, forward for a pawn (`+1` column for
   * red, `-1` for black); a `move` goes to an empty square, a `capture` jumps an
   * opponent and, once replayed, lands on an empty square.
   */
  lemma OfferedGeometry(board: ServerBoard, position: string, k: string)
    requires position in board
    requires k in MovesFrom(board, position) && IsPosition(k)
    ensures var dCol := IndexFromPosition(k).0 - IndexFromPosition(position).0;
      var dRow := IndexFromPosition(k).1 - IndexFromPosition(position).1;
      && (dCol == 1 || dCol == -1) && (dRow == 1 || dRow == -1)
      && (board[position].piece == Pawn ==> dCol == if board[position].player == Red then 1 else -1)
    ensures MovesFrom(board, position)[k] == MoveK ==> k !in board
    ensures MovesFrom(board, position)[k] == CaptureK ==>
      k in board && board[k].player != board[position].player && Landing(position, k) !in board
  {
    var piece := board[position];
    var (iCol, iRow) := IndexFromPosition(position);
    AvailableMovesRule(board, position, k);
    AvailableMovesKind(board, position, k);
    var o :| o in PieceOffsets(piece) && Neighbour(iCol, iRow, o) == k
      && (k !in board || (board[k].player != piece.player && Ending(iCol, iRow, o) !in board));
    OffsetIsDiagonal(piece, o);
    NeighbourIndices(iCol, iRow, o);
    CaptureLandsBeyond(position, o);
  }

  /** Every offset is one diagonal step; a pawn's goes forward along the columns. */
  lemma OffsetIsDiagonal(piece: PlayerPiece, o: Offset)
    requires o in PieceOffsets(piece)
    ensures (o.dCol == 1 || o.dCol == -1) && (o.dRow == 1 || o.dRow == -1)
    ensures piece.piece == Pawn ==> o.dCol == if piece.player == Red then 1 else -1
  {
    PieceOffsetsTable(piece);
  }

  /**
   * The server does no range check: a red piece on the `h` column is offered
   * a `move` along a `+1` column offset to a label such as `undefined5`,
   * which is none of the 64 squares.
   */
  lemma EdgeMoveLeavesBoard(board: ServerBoard, position: string, o: Offset)
    requires position in board && board[position].player == Red
    requires IndexFromPosition(position).0 == 7
    requires o == Offset(1, 1) || o == Offset(1, -1)
    requires Neighbour(7, IndexFromPosition(position).1, o) !in board
    ensures var k := Neighbour(7, IndexFromPosition(position).1, o);
      && k in MovesFrom(board, position) && MovesFrom(board, position)[k] == MoveK
      && !IsPosition(k)
  {
    var piece := board[position];
    var (iCol, iRow) := IndexFromPosition(position);
    var k := Neighbour(iCol, iRow, o);
    NeighbourIndices(iCol, iRow, o);
    PieceOffsetsTable(piece);
    assert o in PieceOffsets(piece);
    AvailableMovesRule(board, position, k);
    AvailableMovesKind(board, position, k);
  }

  /**
   * Likewise toward the edge: a red piece on the `g` column is offered a
   * `capture` of a black piece on the `h` column whenever the label beyond is
   * not on the board map...
   */
  lemma EdgeCaptureOffered(board: ServerBoard, position: string, o: Offset)
    requires position in board && board[position].player == Red
    requires IndexFromPosition(position).0 == 6
    requires o == Offset(1, 1) || o == Offset(1, -1)
    requires var k := Neighbour(6, IndexFromPosition(position).1, o);
      k in board && board[k].player == Black && Ending(6, IndexFromPosition(position).1, o) !in board
    ensures var k := Neighbour(6, IndexFromPosition(position).1, o);
      k in MovesFrom(board, position) && MovesFrom(board, position)[k] == CaptureK
  {
    var piece := board[position];
    var (iCol, iRow) := IndexFromPosition(position);
    var k := Neighbour(iCol, iRow, o);
    PieceOffsetsTable(piece);
    assert o in PieceOffsets(piece);
    assert board[k].player != piece.player && Ending(iCol, iRow, o) !in board;
    AvailableMovesRule(board, position, k);
    AvailableMovesKind(board, position, k);
  }

  /** ...and the replayed capture lands beyond the jumped square, on a label off the board. */
  lemma EdgeCaptureLandsOffBoard(position: string, o: Offset)
    requires IndexFromPosition(position).0 == 6
    requires o == Offset(1, 1) || o == Offset(1, -1)
    requires IsPosition(Neighbour(6, IndexFromPosition(position).1, o))
    ensures var k := Neighbour(6, IndexFromPosition(position).1, o);
      && Landing(position, k) == Ending(6, IndexFromPosition(position).1, o)
      && !IsPosition(Landing(position, k))
  {
    var iRow := IndexFromPosition(position).1;
    CaptureLandsBeyond(position, o);
    ToPositionOffBoard(6 + o.dCol * 2, iRow + o.dRow * 2);
  }

  // ---------------------------------------------------------------------------
  // movePiece / capturePiece
  // ---------------------------------------------------------------------------

  /**
   * When `movePiece` succeeds and when it throws: each empty form field in
   * turn, an unknown game, an empty origin, a destination that is not
   * offered; otherwise the appended entry records the game, the offered
   * kind, the moving piece, both squares, and is active.
   */
  lemma MoveResultRule(games: set<string>, log: seq<Entry>, g: string, from: string, to: string,
                       playerId: string)
    ensures g == "" ==> MoveResult(games, log, g, from, to, playerId) == Err(InvalidGameId)
    ensures g != "" && from == "" ==> MoveResult(games, log, g, from, to, playerId) == Err(InvalidFrom)
    ensures g != "" && from != "" && to == "" ==> MoveResult(games, log, g, from, to, playerId) == Err(InvalidTo)
    ensures g != "" && from != "" && to != "" && playerId == "" ==>
      MoveResult(games, log, g, from, to, playerId) == Err(InvalidPlayerId)
    ensures g != "" && from != "" && to != "" && playerId != "" ==>
      var r := MoveResult(games, log, g, from, to, playerId);
      && (g !in games ==> r == Err(GameNotFound))
      && (g in games ==>
           var board := GameDataOf(games, log, g).value.board;
           && (from !in board ==> r == Err(NoPieceFound))
           && (from in board && to !in MovesFrom(board, from) ==> r == Err(InvalidMove))
           && (from in board && to in MovesFrom(board, from) ==>
                 && r.Ok? && r.value.gameId == g && r.value.active
                 && r.value.from == from && r.value.to == to
                 && r.value.etype == EntryTypeOf(MovesFrom(board, from)[to])
                 && PieceOf(r.value) == board[from]))
  {}

  /** The player id is only required to be non-empty: it decides nothing, nor does whose turn it is. */
  lemma PlayerNotChecked(games: set<string>, log: seq<Entry>, g: string, from: string, to: string,
                         p1: string, p2: string)
    requires p1 != "" && p2 != ""
    ensures MoveResult(games, log, g, from, to, p1) == MoveResult(games, log, g, from, to, p2)
  {}

  /**
   * The turn is not enforced: a piece of the player who does not have the
   * turn may move whenever the destination is offered.
   */
  lemma TurnNotEnforced(games: set<string>, log: seq<Entry>, g: string, from: string, to: string,
                        playerId: string)
    requires g != "" && from != "" && to != "" && playerId != "" && g in games
    requires var d := GameDataOf(games, log, g).value;
      from in d.board && d.board[from].player != d.currentPlayer && to in MovesFrom(d.board, from)
    ensures MoveResult(games, log, g, from, to, playerId).Ok?
  {
    MoveResultRule(games, log, g, from, to, playerId);
  }

  /**
   * A successful move appends its entry to the game's history: the new game
   * data is the old one with that entry replayed, and the turn passes
   * exactly when the entry is a `move`.
   */
  lemma AppendReplays(games: set<string>, log: seq<Entry>, g: string, from: string, to: string,
                      playerId: string)
    requires MoveResult(games, log, g, from, to, playerId).Ok?
    ensures var e := MoveResult(games, log, g, from, to, playerId).value;
      var d := GameDataOf(games, log, g).value;
      var d' := GameDataOf(games, log + [e], g).value;
      && GameDataOf(games, log + [e], g).Some?
      && d'.history == d.history + [e]
      && d'.board == ReplayEntry(Replayed(d.board, d.scores), e).board
      && d'.scores == ReplayEntry(Replayed(d.board, d.scores), e).scores
      && d'.currentPlayer == if e.etype == MoveEntry then Opponent(d.currentPlayer) else d.currentPlayer
  {
    var e := MoveResult(games, log, g, from, to, playerId).value;
    MoveResultRule(games, log, g, from, to, playerId);
    var h := ActiveHistory(log, g);
    ActiveHistorySnoc(log, e, g);
    HistorySnoc(h, e);
    ReplaySnoc(Replayed(InitBoard(h), InitialScores), Moves(h), e);
    TurnParity(h, e);
  }

  /** A move in one game changes nothing any other game returns. */
  lemma MoveLeavesOtherGames(games: set<string>, log: seq<Entry>, g: string, from: string, to: string,
                             playerId: string, other: string)
    requires MoveResult(games, log, g, from, to, playerId).Ok? && other != g
    ensures GameDataOf(games, log + [MoveResult(games, log, g, from, to, playerId).value], other)
      == GameDataOf(games, log, other)
  {
    MoveResultRule(games, log, g, from, to, playerId);
    IgnoredEntry(games, log, MoveResult(games, log, g, from, to, playerId).value, other);
  }

  // ---------------------------------------------------------------------------
  // undoMove
  // ---------------------------------------------------------------------------

  /**
   * `undoMove` changes exactly one entry, the most recent undoable one of the
   * game, and only its `active` flag; without such an entry, or without a
   * game id, the log is unchanged.
   */
  lemma UndoChangesOne(log: seq<Entry>, g: string)
    ensures |UndoLog(log, g)| == |log|
    ensures g == "" || LastUndoable(log, g).None? ==> UndoLog(log, g) == log
    ensures g != "" && LastUndoable(log, g).Some? ==>
      var i := LastUndoable(log, g).value;
      && UndoLog(log, g)[i] == log[i].(active := false)
      && log[i].active && log[i].gameId == g && log[i].etype != Init
      && (forall j :: i < j < |log| ==> !Undoable(log[j], g))
      && (forall j :: 0 <= j < |log| && j != i ==> UndoLog(log, g)[j] == log[j])
  {}

  /** Undoing in one game changes nothing any other game returns. */
  lemma UndoLeavesOtherGames(games: set<string>, log: seq<Entry>, g: string, other: string)
    requires other != g
    ensures GameDataOf(games, UndoLog(log, g), other) == GameDataOf(games, log, other)
  {
    if g != "" && LastUndoable(log, g).Some? {
      var i := LastUndoable(log, g).value;
      ActiveHistoryUpdate(log, i, log[i].(active := false), other);
    }
  }

  /** Undo right after a successful move deactivates that move, and the game is as before it. */
  lemma UndoAfterMove(games: set<string>, log: seq<Entry>, g: string, from: string, to: string,
                      playerId: string)
    requires MoveResult(games, log, g, from, to, playerId).Ok?
    ensures var e := MoveResult(games, log, g, from, to, playerId).value;
      && UndoLog(log + [e], g) == log + [e.(active := false)]
      && GameDataOf(games, UndoLog(log + [e], g), g) == GameDataOf(games, log, g)
  {
    var e := MoveResult(games, log, g, from, to, playerId).value;
    MoveResultRule(games, log, g, from, to, playerId);
    assert Undoable((log + [e])[|log|], g);
    assert LastUndoable(log + [e], g) == Some(|log|);
    assert (log + [e])[|log| := e.(active := false)] == log + [e.(active := false)];
    IgnoredEntry(games, log, e.(active := false), g);
  }
}
