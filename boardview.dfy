/**
 * What a piece reads of the board while it computes its moves: the 64 tiles, the en-passant
 * pawn, and the current player's castles when the board already has a current player
 * (while ChessBoard's constructor is still running it has none).
 */
module BoardViews {
  import opened Wrappers
  import opened Squares
  import opened Alliances
  import opened Pieces
  import opened Tiles
  import opened Moves

  datatype BoardView = BoardView(tiles: seq<Tile>, enPassantPawn: Option<Piece>, currentPlayerCastles: Option<seq<Move>>)
  {
    predicate Valid()
    {
      |tiles| == NumTiles
    }

    /** getTile(c).isTileOccupied() */
    predicate IsOccupied(coordinate: int)
      requires Valid() && IsValidTileCoordinate(coordinate)
    {
      tiles[coordinate].IsTileOccupied()
    }

    /** The square holds a piece of the other side. */
    predicate IsEnemyAt(piece: Piece, coordinate: int)
      requires Valid() && IsValidTileCoordinate(coordinate)
    {
      IsOccupied(coordinate) && tiles[coordinate].pieceOnTile.pieceAlliance != piece.pieceAlliance
    }

    /**
     * The test every knight, bishop, rook, queen and king applies to a candidate square:
     * a plain move onto an empty square, a capture of an opponent's piece, nothing on a friendly piece.
     */
    function MajorStep(piece: Piece, destination: int): seq<Move>
      requires Valid() && IsValidTileCoordinate(destination)
    {
      if !IsOccupied(destination) then [MajorMove(piece, destination)]
      else if IsEnemyAt(piece, destination) then [MajorAttackMove(piece, destination, tiles[destination].pieceOnTile)]
      else []
    }
  }

  /** The moves a major step can produce: a move of exactly that piece to exactly that square, legal by occupancy. */
  predicate IsMajorStepMove(view: BoardView, piece: Piece, m: Move)
    requires view.Valid()
  {
    && (m.MajorMove? || m.MajorAttackMove?)
    && m.movedPiece == piece
    && IsValidTileCoordinate(m.destinationCoordinate)
    && (m.MajorMove? ==> !view.IsOccupied(m.destinationCoordinate))
    && (m.MajorAttackMove? ==> view.IsEnemyAt(piece, m.destinationCoordinate)
                               && m.attackedPiece == view.tiles[m.destinationCoordinate].pieceOnTile)
  }

  /** A major step yields at most one move, of the right shape, and misses the square only when a friendly piece is on it. */
  lemma MajorStepShape(view: BoardView, piece: Piece, destination: int)
    requires view.Valid() && IsValidTileCoordinate(destination)
    ensures |view.MajorStep(piece, destination)| <= 1
    ensures forall m :: m in view.MajorStep(piece, destination) ==>
              IsMajorStepMove(view, piece, m) && m.destinationCoordinate == destination
    ensures view.MajorStep(piece, destination) == [] <==>
              view.IsOccupied(destination) && !view.IsEnemyAt(piece, destination)
  {
  }
}
