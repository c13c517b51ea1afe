/** Rook.java: sliding walks along the rank and the file. */
module Rooks {
  import opened Squares
  import opened Pieces
  import opened Moves
  import opened BoardViews
  import opened Sliding

  const CandidateMoveVectorCoordinates: seq<int> := [-8, -1, 1, 8]

  predicate IsFirstColumnExclusion(currentPosition: int, candidateOffset: int)
  {
    IsAFile(currentPosition) && candidateOffset == -1
  }

  predicate IsEighthColumnExclusion(currentPosition: int, candidateOffset: int)
  {
    IsHFile(currentPosition) && candidateOffset == 1
  }

  predicate IsExcluded(currentPosition: int, candidateOffset: int)
  {
    IsFirstColumnExclusion(currentPosition, candidateOffset) || IsEighthColumnExclusion(currentPosition, candidateOffset)
  }

  /** Rook.calculateLegalMoves as a value. */
  function LegalMoves(view: BoardView, rook: Piece): seq<Move>
    requires view.Valid()
  {
    SlidingMoves(view, rook, CandidateMoveVectorCoordinates, IsExcluded)
  }

  /** Rook.calculateLegalMoves */
  method CalculateLegalMoves(view: BoardView, rook: Piece) returns (legalMoves: seq<Move>)
    requires view.Valid()
    ensures legalMoves == LegalMoves(view, rook)
  {
    legalMoves := CalculateSlidingMoves(view, rook, CandidateMoveVectorCoordinates, IsExcluded);
  }

  /**
   * The two exclusions fire exactly on the sideways steps that would wrap onto the next row: a step
   * that is not excluded reaches the genuine neighbour, and an excluded step onto the board does
   * not; -8 and 8 never wrap.
   */
  lemma ExclusionsGuardEdges()
    ensures forall i :: 0 <= i < |CandidateMoveVectorCoordinates| ==>
              IsKingVector(CandidateMoveVectorCoordinates[i]) && GuardsEdges(IsExcluded, CandidateMoveVectorCoordinates[i])
  {
    forall i, c | 0 <= i < |CandidateMoveVectorCoordinates| && 0 <= c < NumTiles
      ensures StepGuarded(IsExcluded, CandidateMoveVectorCoordinates[i], c)
    {
      ExclusionGuardsStep(CandidateMoveVectorCoordinates[i], c);
    }
  }

  /** One vector from one square: excluded exactly when the step onto the board would wrap. */
  lemma ExclusionGuardsStep(offset: int, coordinate: int)
    requires offset in CandidateMoveVectorCoordinates && IsValidTileCoordinate(coordinate)
    ensures StepGuarded(IsExcluded, offset, coordinate)
  {
    Decompose(coordinate);
    if IsValidTileCoordinate(coordinate + offset) {
      Decompose(coordinate + offset);
    }
  }

  /**
   * Every rook move is a legal major step to another square of its rank or file, reached along
   * it without wrapping and over empty squares only.
   */
  lemma {:induction false} LegalMovesAreOrthogonal(view: BoardView, rook: Piece)
    requires view.Valid() && IsValidTileCoordinate(rook.piecePosition)
    ensures forall m :: m in LegalMoves(view, rook) ==>
              IsMajorStepMove(view, rook, m) && IsOrthogonal(rook.piecePosition, m.GetDestinationCoordinate())
    ensures forall m :: m in LegalMoves(view, rook) ==>
              exists i, n :: 0 <= i < |CandidateMoveVectorCoordinates| &&
                             m.GetDestinationCoordinate() == Along(rook.piecePosition, CandidateMoveVectorCoordinates[i], n) &&
                             Reached(view, rook.piecePosition, CandidateMoveVectorCoordinates[i], n)
  {
    ExclusionsGuardEdges();
    SlidingMovesOnRays(view, rook, CandidateMoveVectorCoordinates, IsExcluded);
    SlidingMovesReached(view, rook, CandidateMoveVectorCoordinates, IsExcluded);
    forall m | m in LegalMoves(view, rook)
      ensures IsOrthogonal(rook.piecePosition, m.GetDestinationCoordinate())
    {
      var i :| 0 <= i < |CandidateMoveVectorCoordinates| &&
               OnRay(rook.piecePosition, m.GetDestinationCoordinate(), CandidateMoveVectorCoordinates[i]);
      RayShape(rook.piecePosition, m.GetDestinationCoordinate(), CandidateMoveVectorCoordinates[i]);
    }
  }

  /**
   * Every square that the rook reaches along one of its vectors without wrapping and over empty
   * squares only gives a move: a plain move when it is empty, a capture when it holds an
   * opponent's piece.
   */
  lemma {:induction false} ReachedSquaresAreLegalMoves(view: BoardView, rook: Piece, i: int, n: int)
    requires view.Valid() && IsValidTileCoordinate(rook.piecePosition) && 0 <= i < |CandidateMoveVectorCoordinates|
    requires Reached(view, rook.piecePosition, CandidateMoveVectorCoordinates[i], n)
    ensures var destination := Along(rook.piecePosition, CandidateMoveVectorCoordinates[i], n);
            IsValidTileCoordinate(destination) &&
            (!view.IsOccupied(destination) ==> MajorMove(rook, destination) in LegalMoves(view, rook)) &&
            (view.IsEnemyAt(rook, destination) ==>
               MajorAttackMove(rook, destination, view.tiles[destination].pieceOnTile) in LegalMoves(view, rook))
  {
    ExclusionsGuardEdges();
    ReachedAreSlidingMoves(view, rook, CandidateMoveVectorCoordinates, IsExcluded, i, n);
  }
}
