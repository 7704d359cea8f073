/**
 * The client's board coordinates (src/lib/game/position.ts): columns `a`..`h`,
 * rows given by the numerals in reverse, so row index 0 is `8` and row index 7
 * is `1`. Off-board inputs give an explicit absent value.
 */
module Position {
  import opened Options
  import opened Seqs

  const Letters: seq<string> := ["a", "b", "c", "d", "e", "f", "g", "h"]
  const Numerals: seq<string> := ["1", "2", "3", "4", "5", "6", "7", "8"]

  /** Columns are the letters. */
  const Cols: seq<string> := Letters
  /** Rows are the numerals in reverse order (`RowsReversed`): index 0 is `8`, index 7 is `1`. */
  const Rows: seq<string> := ["8", "7", "6", "5", "4", "3", "2", "1"]

  /** `rows` is `numerals.toReversed()`. */
  lemma RowsReversed()
    ensures Rows == Reversed(Numerals)
    ensures forall i :: 0 <= i < 8 ==> Rows[i] == Numerals[7 - i]
  {
    var reversed := Reversed(Numerals);
    assert forall i :: 0 <= i < 8 ==> reversed[i] == Rows[i];
  }

  lemma ColsLayout()
    ensures |Cols| == 8 && Distinct(Cols)
    ensures forall i :: 0 <= i < 8 ==> |Cols[i]| == 1
  {}

  lemma RowsDistinct()
    ensures |Rows| == 8 && Distinct(Rows)
    ensures forall i :: 0 <= i < 8 ==> |Rows[i]| == 1
  {}

  /** A square label, the template literal type `${Column}${Row}`: one column letter followed by one row numeral. */
  predicate IsPosition(s: string) {
    |s| == 2 && s[..1] in Cols && s[1..] in Rows
  }

  /** A JavaScript value as the validators receive it (`unknown`). */
  datatype Value = Undefined | Num(n: int) | Str(s: string) | Obj(col: Value, row: Value)

  predicate IsValidRowIndex(row: Value) {
    row.Num? && 0 <= row.n < |Rows|
  }

  predicate IsValidColIndex(col: Value) {
    col.Num? && 0 <= col.n < |Cols|
  }

  predicate IsValidRow(row: Value) {
    row.Str? && row.s in Rows
  }

  predicate IsValidCol(col: Value) {
    col.Str? && col.s in Cols
  }

  /** The label of the square in column `c` and row `r`, for in-range indices. */
  lemma LabelIsPosition(c: int, r: int)
    requires 0 <= c < 8 && 0 <= r < 8
    ensures IsPosition(Cols[c] + Rows[r])
    ensures (Cols[c] + Rows[r])[..1] == Cols[c] && (Cols[c] + Rows[r])[1..] == Rows[r]
  {
    RowsDistinct();
    var s := Cols[c] + Rows[r];
    assert s[..1] == Cols[c];
    assert s[1..] == Rows[r];
  }

  /**
   * `toPosition` in its three call forms: an object `{col, row}` is passed on to
   * the two-argument form; two in-range indices give `cols[c] + rows[r]`; a valid
   * column and row label give their concatenation; anything else is absent.
   */
  function ToPosition(col: Value, row: Value): (r: Option<string>)
    decreases col
  {
    if col.Obj? then ToPosition(col.col, col.row)
    else if col.Num? then
      if IsValidColIndex(col) && IsValidRowIndex(row) then
        Some(Cols[col.n] + Rows[row.n])
      else None
    else if IsValidCol(col) && IsValidRow(row) then
      Some(col.s + row.s)
    else None
  }

  /** `fromPosition(p)`: the first and second characters, `undefined` past the end. */
  function FromPosition(p: string): (Value, Value) {
    (if |p| >= 1 then Str(p[..1]) else Undefined,
     if |p| >= 2 then Str(p[1..2]) else Undefined)
  }

  /** `indexOf` on a value that may be `undefined`. */
  function ValueIndex(xs: seq<string>, v: Value): int {
    if v.Str? then IndexOf(xs, v.s) else -1
  }

  /** `fromPosition(p).toIndex()`: the column and row index, -1 for a missing label. */
  function ToIndex(p: string): (int, int) {
    var split := FromPosition(p);
    (ValueIndex(Cols, split.0), ValueIndex(Rows, split.1))
  }

  /** The 64 labels, rows outermost (`rows.flatMap(row => cols.map(...))`). */
  const Positions: seq<string> := PositionsOfRows(Rows)

  function RowPositions(row: string): seq<string> {
    seq(|Cols|, i requires 0 <= i < |Cols| => Cols[i] + row)
  }

  function PositionsOfRows(rows: seq<string>): seq<string> {
    if rows == [] then [] else RowPositions(rows[0]) + PositionsOfRows(rows[1..])
  }

  // ---------------------------------------------------------------------------
  // Properties
  // ---------------------------------------------------------------------------

  /** A column letter `a`..`h` followed by a row numeral `1`..`8` is a square label. */
  lemma CharsArePosition(s: string)
    requires |s| == 2 && 'a' <= s[0] <= 'h' && '1' <= s[1] <= '8'
    ensures IsPosition(s)
  {
    assert s[..1] == [s[0]] && s[1..] == [s[1]];
    var c := s[0] as int - 'a' as int;
    var r := '8' as int - s[1] as int;
    assert Cols[c] == [s[0]];
    assert Rows[r] == [s[1]];
  }

  /** Whatever `toPosition` returns is a square label. */
  lemma ToPositionIsPosition(col: Value, row: Value)
    ensures ToPosition(col, row).Some? ==> IsPosition(ToPosition(col, row).value)
    decreases col
  {
    if col.Obj? {
      ToPositionIsPosition(col.col, col.row);
    } else if IsValidColIndex(col) && IsValidRowIndex(row) {
      LabelIsPosition(col.n, row.n);
    } else if col.Str? && IsValidCol(col) && IsValidRow(row) {
      RowsDistinct();
      var s := col.s + row.s;
      assert |col.s| == 1 && |row.s| == 1;
      assert s[..1] == col.s && s[1..] == row.s;
    }
  }

  /** Numeric form: a position exactly for in-range indices, namely `cols[c] + rows[r]`. */
  lemma ToPositionIndices(c: int, r: int)
    ensures ToPosition(Num(c), Num(r)).Some? <==> 0 <= c < 8 && 0 <= r < 8
    ensures ToPosition(Num(c), Num(r)).Some? ==> ToPosition(Num(c), Num(r)).value == Cols[c] + Rows[r]
  {
    RowsDistinct();
  }

  /** Label form: a position exactly when the column is `a`..`h` and the row `1`..`8`. */
  lemma ToPositionLabels(col: string, row: string)
    ensures ToPosition(Str(col), Str(row)).Some? <==> col in Letters && row in Numerals
    ensures ToPosition(Str(col), Str(row)).Some? ==> ToPosition(Str(col), Str(row)).value == col + row
  {
    RowsReversed();
  }

  /** Mixed or missing arguments give no position. */
  lemma ToPositionMixed(c: int, s: string)
    ensures ToPosition(Num(c), Str(s)).None? && ToPosition(Str(s), Num(c)).None?
    ensures ToPosition(Undefined, Num(c)).None? && ToPosition(Str(s), Undefined).None?
  {}

  /** The object form agrees with the two-argument form, whatever the second argument. */
  lemma ToPositionObject(col: Value, row: Value, ignored: Value)
    ensures ToPosition(Obj(col, row), ignored) == ToPosition(col, row)
  {}

  /** Round trip from indices: `fromPosition(toPosition(c, r)).toIndex() == (c, r)`. */
  lemma IndexRoundTrip(c: int, r: int)
    requires 0 <= c < 8 && 0 <= r < 8
    ensures ToPosition(Num(c), Num(r)).Some?
    ensures ToIndex(ToPosition(Num(c), Num(r)).value) == (c, r)
  {
    ColsLayout();
    RowsDistinct();
    LabelIsPosition(c, r);
    var p := ToPosition(Num(c), Num(r)).value;
    assert p == Cols[c] + Rows[r];
    assert p[1..2] == p[1..];
    IndexOfDistinct(Cols, c);
    IndexOfDistinct(Rows, r);
  }

  /** The indices of a position are in range. */
  lemma ToIndexInRange(p: string)
    requires IsPosition(p)
    ensures 0 <= ToIndex(p).0 < 8 && 0 <= ToIndex(p).1 < 8
    ensures Cols[ToIndex(p).0] == p[..1] && Rows[ToIndex(p).1] == p[1..]
  {
    RowsDistinct();
    assert p[1..2] == p[1..];
  }

  /** Round trip from labels: the two characters of a position rebuild it. */
  lemma PositionRoundTrip(p: string)
    requires IsPosition(p)
    ensures ToPosition(FromPosition(p).0, FromPosition(p).1) == Some(p)
  {
    assert p[1..2] == p[1..];
    assert p == p[..1] + p[1..];
    ToPositionLabelsIsConcat(p[..1], p[1..]);
  }

  lemma ToPositionLabelsIsConcat(col: string, row: string)
    requires col in Cols && row in Rows
    ensures ToPosition(Str(col), Str(row)) == Some(col + row)
  {}

  /** Round trip through indices: the indices of a position rebuild it. */
  lemma PositionIndexRoundTrip(p: string)
    requires IsPosition(p)
    ensures ToPosition(Num(ToIndex(p).0), Num(ToIndex(p).1)) == Some(p)
  {
    ToIndexInRange(p);
    var (c, r) := ToIndex(p);
    ToPositionIndices(c, r);
    assert p == p[..1] + p[1..];
  }

  lemma {:induction false} PositionsOfRowsAt(rows: seq<string>, k: int)
    requires 0 <= k < 8 * |rows|
    ensures |PositionsOfRows(rows)| == 8 * |rows|
    ensures PositionsOfRows(rows)[k] == Cols[k % 8] + rows[k / 8]
  {
    if k < 8 {
      PositionsOfRowsLength(rows[1..]);
    } else {
      PositionsOfRowsAt(rows[1..], k - 8);
      assert PositionsOfRows(rows) == RowPositions(rows[0]) + PositionsOfRows(rows[1..]);
      assert (k - 8) % 8 == k % 8 && (k - 8) / 8 == k / 8 - 1;
    }
  }

  lemma {:induction false} PositionsOfRowsLength(rows: seq<string>)
    ensures |PositionsOfRows(rows)| == 8 * |rows|
  {
    if rows != [] {
      PositionsOfRowsLength(rows[1..]);
    }
  }

  /** `positions` is row-major from row `8`: square `k` is column `k % 8` of row `k / 8`. */
  lemma PositionsLayout(k: int)
    requires 0 <= k < 64
    ensures |Positions| == 64
    ensures Positions[k] == Cols[k % 8] + Rows[k / 8]
    ensures ToIndex(Positions[k]) == (k % 8, k / 8)
  {
    RowsDistinct();
    PositionsOfRowsAt(Rows, k);
    IndexRoundTrip(k % 8, k / 8);
  }

  /** `positions` lists no square twice. */
  lemma PositionsDistinct()
    ensures |Positions| == 64 && Distinct(Positions)
  {
    PositionsOfRowsLength(Rows);
    RowsDistinct();
    forall i, j | 0 <= i < j < |Positions| ensures Positions[i] != Positions[j] {
      PositionsLayout(i);
      PositionsLayout(j);
      assert (i % 8, i / 8) != (j % 8, j / 8);
    }
  }

  /** Every entry of `positions` is a square label. */
  lemma PositionIsSquare(k: int)
    requires 0 <= k < 64
    ensures |Positions| == 64 && IsPosition(Positions[k])
  {
    PositionsLayout(k);
    LabelIsPosition(k % 8, k / 8);
  }

  /** Every square label is listed in `positions`, at row-major index `8 * row + col`. */
  lemma SquareIsListed(s: string)
    requires IsPosition(s)
    ensures |Positions| == 64 && 0 <= 8 * ToIndex(s).1 + ToIndex(s).0 < 64
    ensures Positions[8 * ToIndex(s).1 + ToIndex(s).0] == s
  {
    ToIndexInRange(s);
    var c, r := ToIndex(s).0, ToIndex(s).1;
    RowMajor(c, r);
    PositionsLayout(8 * r + c);
    LabelSplits(s);
  }

  /** The row-major index `8 * r + c` gives back its column and row. */
  lemma RowMajor(c: int, r: int)
    requires 0 <= c < 8 && 0 <= r < 8
    ensures 0 <= 8 * r + c < 64 && (8 * r + c) % 8 == c && (8 * r + c) / 8 == r
  {}

  /** A label is its first character followed by the rest. */
  lemma LabelSplits(s: string)
    requires |s| == 2
    ensures s == s[..1] + s[1..]
  {}

  /** `positions` holds exactly the square labels. */
  lemma PositionsExactlyTheSquares(s: string)
    ensures s in Positions <==> IsPosition(s)
  {
    PositionsOfRowsLength(Rows);
    if s in Positions {
      var k :| 0 <= k < 64 && Positions[k] == s;
      PositionIsSquare(k);
    }
    if IsPosition(s) {
      SquareIsListed(s);
    }
  }
}
