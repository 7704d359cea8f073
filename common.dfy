/**
 * The server's board coordinates (src/lib/game/common.ts). The same 8x8 grid
 * as the client's, but `toPosition` does no range check: an index outside the
 * board interpolates the text `undefined` into the label, so it always
 * returns a non-empty string, which is then not one of the 64 squares.
 */
module Common {
  import opened Options
  import opened Seqs
  import Position

  const Numerals: seq<string> := ["1", "2", "3", "4", "5", "6", "7", "8"]
  const Letters: seq<string> := ["a", "b", "c", "d", "e", "f", "g", "h"]

  /** Rows are the numerals in reverse order (`RowsReversed`): index 0 is `8`. */
  const Rows: seq<string> := ["8", "7", "6", "5", "4", "3", "2", "1"]
  /** Columns are the letters. */
  const Cols: seq<string> := Letters

  /** `numerals.toReversed()`. */
  lemma RowsReversed()
    ensures Rows == Reversed(Numerals)
    ensures Rows[0] == "8" && Rows[7] == "1"
  {
    var reversed := Reversed(Numerals);
    assert forall i :: 0 <= i < 8 ==> reversed[i] == Rows[i];
  }

  datatype Player = Red | Black
  datatype PieceType = Pawn | King

  /** A square label: a column letter followed by a row numeral. */
  predicate IsPosition(s: string) {
    |s| == 2 && s[..1] in Cols && s[1..] in Rows
  }

  /** The two call forms of `toPosition`: two numbers, or a column and a row label. */
  datatype Coords = Indices(col: int, row: int) | Labels(c: string, r: string)

  /** `${xs[i]}`: the element, or the text `undefined` for an index outside the array. */
  function Interpolate(xs: seq<string>, i: int): string {
    if 0 <= i < |xs| then xs[i] else "undefined"
  }

  /** `toPosition`: `cols[col] + rows[row]` for numbers, plain concatenation for labels. */
  function ToPosition(at: Coords): string {
    match at
    case Indices(col, row) => Interpolate(Cols, col) + Interpolate(Rows, row)
    case Labels(c, r) => c + r
  }

  /** `splitFromPosition`: the first and second characters, absent past the end. */
  function SplitFromPosition(p: string): (Option<string>, Option<string>) {
    (if |p| >= 1 then Some(p[..1]) else None,
     if |p| >= 2 then Some(p[1..2]) else None)
  }

  /** `xs.indexOf(v)` for a value that may be absent (never found). */
  function IndexOfPart(xs: seq<string>, v: Option<string>): int {
    if v.Some? then IndexOf(xs, v.value) else -1
  }

  /** `indexFromPosition`: the column and row index, -1 for a missing or unknown label. */
  function IndexFromPosition(p: string): (int, int) {
    var split := SplitFromPosition(p);
    (IndexOfPart(Cols, split.0), IndexOfPart(Rows, split.1))
  }

  // ---------------------------------------------------------------------------
  // Properties
  // ---------------------------------------------------------------------------

  lemma ColsRowsDistinct()
    ensures |Cols| == 8 && Distinct(Cols) && |Rows| == 8 && Distinct(Rows)
    ensures forall i :: 0 <= i < 8 ==> |Cols[i]| == 1 && |Rows[i]| == 1
  {}

  /** In-range indices give `cols[c] + rows[r]`, a square label. */
  lemma ToPositionInRange(c: int, r: int)
    requires 0 <= c < 8 && 0 <= r < 8
    ensures ToPosition(Indices(c, r)) == Cols[c] + Rows[r]
    ensures IsPosition(ToPosition(Indices(c, r)))
  {
    ColsRowsDistinct();
    var s := Cols[c] + Rows[r];
    assert s[..1] == Cols[c] && s[1..] == Rows[r];
  }

  /** The label form is plain concatenation: it checks nothing either. */
  lemma ToPositionLabels(c: string, r: string)
    ensures ToPosition(Labels(c, r)) == c + r
    ensures c in Cols && r in Rows ==> IsPosition(ToPosition(Labels(c, r)))
  {
    if c in Cols && r in Rows {
      ColsRowsDistinct();
      var s := c + r;
      assert s[..1] == c && s[1..] == r;
    }
  }

  /**
   * No range check: an index off the board still gives a string, never an
   * absent value, and that string is longer than a label, so it is none of
   * the 64 squares.
   */
  lemma ToPositionOffBoard(c: int, r: int)
    requires !(0 <= c < 8 && 0 <= r < 8)
    ensures |ToPosition(Indices(c, r))| > 2
    ensures !IsPosition(ToPosition(Indices(c, r)))
  {
    ColsRowsDistinct();
  }

  /** Every numeric result is non-empty, so it is always truthy. */
  lemma ToPositionTruthy(c: int, r: int)
    ensures |ToPosition(Indices(c, r))| >= 2
  {
    ColsRowsDistinct();
  }

  /** `splitFromPosition` returns the first two characters of a label. */
  lemma SplitOfLabel(p: string)
    requires |p| >= 2
    ensures SplitFromPosition(p) == (Some([p[0]]), Some([p[1]]))
  {
    assert p[..1] == [p[0]] && p[1..2] == [p[1]];
  }

  /** Round trip: `indexFromPosition(toPosition(c, r)) == (c, r)` on the board. */
  lemma IndexRoundTrip(c: int, r: int)
    requires 0 <= c < 8 && 0 <= r < 8
    ensures IndexFromPosition(ToPosition(Indices(c, r))) == (c, r)
  {
    ToPositionInRange(c, r);
    var p := Cols[c] + Rows[r];
    assert p[..1] == Cols[c] && p[1..2] == Rows[r];
    ColsRowsDistinct();
    IndexOfDistinct(Cols, c);
    IndexOfDistinct(Rows, r);
  }

  /** The indices of a square label lie on the board and rebuild it. */
  lemma IndexOfPosition(p: string)
    requires IsPosition(p)
    ensures 0 <= IndexFromPosition(p).0 < 8 && 0 <= IndexFromPosition(p).1 < 8
    ensures ToPosition(Indices(IndexFromPosition(p).0, IndexFromPosition(p).1)) == p
  {
    ColsRowsDistinct();
    assert p[1..2] == p[1..];
    var c, r := IndexFromPosition(p).0, IndexFromPosition(p).1;
    ToPositionInRange(c, r);
    assert p == p[..1] + p[1..];
  }

  /** Any label's indices are at least -1, the value `indexOf` gives for a miss. */
  lemma IndexAtLeastMinusOne(p: string)
    ensures -1 <= IndexFromPosition(p).0 < 8 && -1 <= IndexFromPosition(p).1 < 8
  {}

  /** On the board the server's labels are the client's: same columns, same rows, same `toPosition`. */
  lemma AgreesWithClient(c: int, r: int)
    ensures Cols == Position.Cols && Rows == Position.Rows
    ensures 0 <= c < 8 && 0 <= r < 8 ==>
      Position.ToPosition(Position.Num(c), Position.Num(r)) == Some(ToPosition(Indices(c, r)))
  {}

  /** A numeric label is a square exactly when both indices are on the board; its indices are then the inputs. */
  lemma IndicesLabel(c: int, r: int)
    ensures IsPosition(ToPosition(Indices(c, r))) <==> 0 <= c < 8 && 0 <= r < 8
    ensures IsPosition(ToPosition(Indices(c, r))) ==> IndexFromPosition(ToPosition(Indices(c, r))) == (c, r)
  {
    if 0 <= c < 8 && 0 <= r < 8 {
      ToPositionInRange(c, r);
      IndexRoundTrip(c, r);
    } else {
      ToPositionOffBoard(c, r);
    }
  }
}
