/** The squares of a board (ChessTile.java): empty or holding exactly one piece. */
module Tiles {
  import opened Wrappers
  import opened Squares
  import opened Alliances
  import opened Pieces

  datatype Tile = EmptyTile(tileCoordinate: int) | OccupiedTile(tileCoordinate: int, pieceOnTile: Piece) {

    predicate IsTileOccupied()
    {
      OccupiedTile?
    }

    /** The piece on the tile; None stands for Java's null on an empty tile. */
    function GetPiece(): (p: Option<Piece>)
      ensures p.Some? <==> IsTileOccupied()
      ensures p.Some? ==> p.value == pieceOnTile
    {
      if OccupiedTile? then Some(pieceOnTile) else None
    }

    /** "-" for an empty tile, the piece's letter for an occupied one, lower case for Black. */
    function ToText(): (s: string)
      ensures |s| == 1
      ensures !IsTileOccupied() ==> s == "-"
      ensures IsTileOccupied() ==> ('a' <= s[0] <= 'z' <==> pieceOnTile.pieceAlliance.IsBlack())
      ensures IsTileOccupied() ==> ToLower(s) == ToLower(pieceOnTile.kind.Letter())
    {
      if EmptyTile? then "-"
      else if pieceOnTile.pieceAlliance.IsBlack() then ToLower(PieceText(pieceOnTile))
      else PieceText(pieceOnTile)
    }
  }

  function LowerChar(c: char): char
  {
    if 'A' <= c <= 'Z' then (c as int + 32) as char else c
  }

  /** String.toLowerCase on the ASCII letters the pieces use. */
  function ToLower(s: string): (t: string)
    ensures |t| == |s|
  {
    seq(|s|, i requires 0 <= i < |s| => LowerChar(s[i]))
  }

  /** The shared cache EMPTY_TILES_CACHE: one empty tile per square. */
  function EmptyTilesCache(): map<int, Tile>
  {
    map i | 0 <= i < NumTiles :: EmptyTile(i)
  }

  /** createAllPossibleEmptyTiles: the loop that fills the cache. */
  method CreateAllPossibleEmptyTiles() returns (emptyTileMap: map<int, Tile>)
    ensures forall i :: i in emptyTileMap <==> IsValidTileCoordinate(i)
    ensures forall i :: i in emptyTileMap ==> emptyTileMap[i] == EmptyTile(i)
    ensures emptyTileMap == EmptyTilesCache()
  {
    emptyTileMap := map[];
    for i := 0 to NumTiles
      invariant forall j :: j in emptyTileMap <==> 0 <= j < i
      invariant forall j :: j in emptyTileMap ==> emptyTileMap[j] == EmptyTile(j)
    {
      emptyTileMap := emptyTileMap[i := EmptyTile(i)];
    }
  }

  /**
   * createTile: an occupied tile for a piece, otherwise the cached empty tile of that square
   * (None when there is no cached tile, Java's null from the cache lookup).
   */
  function CreateTile(tileCoordinate: int, piece: Option<Piece>): (t: Option<Tile>)
    ensures piece.Some? ==> t.Some? && t.value.IsTileOccupied() && t.value.GetPiece() == piece
    ensures piece.None? && IsValidTileCoordinate(tileCoordinate) ==> t.Some? && !t.value.IsTileOccupied() && t.value.GetPiece().None?
    ensures piece.None? && !IsValidTileCoordinate(tileCoordinate) ==> t.None?
    ensures t.Some? ==> t.value.tileCoordinate == tileCoordinate
  {
    if piece.Some? then Some(OccupiedTile(tileCoordinate, piece.value))
    else if tileCoordinate in EmptyTilesCache() then Some(EmptyTilesCache()[tileCoordinate])
    else None
  }
}
