/**
 * The square numbering the engine relies on: 64 tiles numbered row by row from the top
 * left, 0 being a8 (Black's back rank) and 63 being h1. The file and rank tables of the
 * engine's BoardUtils class are written here as index arithmetic; BoardUtils itself is not
 * part of this model.
 */
module Squares {

  const NumTiles: int := 64
  const NumTilesPerRow: int := 8

  predicate IsValidTileCoordinate(coordinate: int)
  {
    0 <= coordinate < NumTiles
  }

  /** 0 for the A-file up to 7 for the H-file. */
  function Column(coordinate: int): int
  {
    coordinate % NumTilesPerRow
  }

  /** 0 for the eighth rank (the top row) up to 7 for the first rank. */
  function Row(coordinate: int): int
  {
    coordinate / NumTilesPerRow
  }

  predicate IsAFile(coordinate: int) { Column(coordinate) == 0 }
  predicate IsBFile(coordinate: int) { Column(coordinate) == 1 }
  predicate IsGFile(coordinate: int) { Column(coordinate) == 6 }
  predicate IsHFile(coordinate: int) { Column(coordinate) == 7 }

  predicate IsEighthRank(coordinate: int) { 0 <= coordinate < 8 }
  predicate IsSeventhRank(coordinate: int) { 8 <= coordinate < 16 }
  predicate IsSecondRank(coordinate: int) { 48 <= coordinate < 56 }
  predicate IsFirstRank(coordinate: int) { 56 <= coordinate < 64 }

  function Abs(x: int): nat
  {
    if x < 0 then -x else x
  }

  /** Adding 8 * rows + columns moves that many rows and columns, as long as the column stays on the board. */
  lemma Shift(coordinate: int, rows: int, columns: int)
    requires 0 <= Column(coordinate) + columns < NumTilesPerRow
    ensures Column(coordinate + 8 * rows + columns) == Column(coordinate) + columns
    ensures Row(coordinate + 8 * rows + columns) == Row(coordinate) + rows
  {
    var q, r := coordinate / 8, coordinate % 8;
    assert coordinate + 8 * rows + columns == 8 * (q + rows) + (r + columns);
  }

  /** A square is its row times eight plus its column, both in 0..7. */
  lemma Decompose(coordinate: int)
    requires IsValidTileCoordinate(coordinate)
    ensures coordinate == 8 * Row(coordinate) + Column(coordinate)
    ensures 0 <= Column(coordinate) < 8 && 0 <= Row(coordinate) < 8
  {
  }

  /** The eight single-step offsets of the king and the queen. */
  predicate IsKingVector(offset: int)
  {
    offset == -9 || offset == -8 || offset == -7 || offset == -1 ||
    offset == 1 || offset == 7 || offset == 8 || offset == 9
  }

  /** The column change of one step along a king vector. */
  function ColumnStep(offset: int): int
  {
    if offset == -9 || offset == -1 || offset == 7 then -1
    else if offset == -7 || offset == 1 || offset == 9 then 1
    else 0
  }

  /** The row change of one step along a king vector. */
  function RowStep(offset: int): int
  {
    if offset < -1 then -1 else if offset > 1 then 1 else 0
  }

  /** `to` is the neighbour of `from` in the direction of the vector. */
  predicate IsStep(from: int, to: int, offset: int)
  {
    Column(to) == Column(from) + ColumnStep(offset) && Row(to) == Row(from) + RowStep(offset)
  }

  /** `to` lies strictly beyond `from` on the line that starts at `from` in the direction of the vector. */
  predicate OnRay(from: int, to: int, offset: int)
  {
    var dc, dr := Column(to) - Column(from), Row(to) - Row(from);
    && (ColumnStep(offset) == 0 ==> dc == 0)
    && (ColumnStep(offset) == 1 ==> dc > 0)
    && (ColumnStep(offset) == -1 ==> dc < 0)
    && (RowStep(offset) == 0 ==> dr == 0)
    && (RowStep(offset) == 1 ==> dr > 0)
    && (RowStep(offset) == -1 ==> dr < 0)
    && (ColumnStep(offset) != 0 && RowStep(offset) != 0 ==> dc == dr || dc == -dr)
  }

  /** One more step along the vector stays on the ray. */
  lemma RayExtend(from: int, to: int, next: int, offset: int)
    requires IsKingVector(offset)
    requires to == from || OnRay(from, to, offset)
    requires IsStep(to, next, offset)
    ensures OnRay(from, next, offset)
  {
  }

  /** Same row or same column, and a different square. */
  predicate IsOrthogonal(from: int, to: int)
  {
    (Column(to) == Column(from)) != (Row(to) == Row(from))
  }

  /** On a common diagonal, and a different square. */
  predicate IsDiagonal(from: int, to: int)
  {
    Abs(Column(to) - Column(from)) == Abs(Row(to) - Row(from)) && Column(to) != Column(from)
  }

  /** One of the eight squares around `from`. */
  predicate IsAdjacent(from: int, to: int)
  {
    Abs(Column(to) - Column(from)) <= 1 && Abs(Row(to) - Row(from)) <= 1 && to != from
  }

  /** A knight's L-shaped jump. */
  predicate IsKnightJump(from: int, to: int)
  {
    var dc, dr := Abs(Column(to) - Column(from)), Abs(Row(to) - Row(from));
    (dc == 1 && dr == 2) || (dc == 2 && dr == 1)
  }

  lemma RayShape(from: int, to: int, offset: int)
    requires IsKingVector(offset) && OnRay(from, to, offset)
    ensures ColumnStep(offset) != 0 && RowStep(offset) != 0 ==> IsDiagonal(from, to)
    ensures ColumnStep(offset) == 0 || RowStep(offset) == 0 ==> IsOrthogonal(from, to)
  {
  }
}
