/** Bishop.java: sliding walks along the four diagonals. */
module Bishops {
  import opened Squares
  import opened Pieces
  import opened Moves
  import opened BoardViews
  import opened Sliding

  const CandidateMoveVectorCoordinates: seq<int> := [-9, -7, 7, 9]

  predicate IsFirstColumnExclusion(currentPosition: int, candidateOffset: int)
  {
    IsAFile(currentPosition) && (candidateOffset == -9 || candidateOffset == 7)
  }

  predicate IsEighthColumnExclusion(currentPosition: int, candidateOffset: int)
  {
    IsHFile(currentPosition) && (candidateOffset == -7 || candidateOffset == 9)
  }

  predicate IsExcluded(currentPosition: int, candidateOffset: int)
  {
    IsFirstColumnExclusion(currentPosition, candidateOffset) || IsEighthColumnExclusion(currentPosition, candidateOffset)
  }

  /** Bishop.calculateLegalMoves as a value. */
  function LegalMoves(view: BoardView, bishop: Piece): seq<Move>
    requires view.Valid()
  {
    SlidingMoves(view, bishop, CandidateMoveVectorCoordinates, IsExcluded)
  }

  /** Bishop.calculateLegalMoves */
  method CalculateLegalMoves(view: BoardView, bishop: Piece) returns (legalMoves: seq<Move>)
    requires view.Valid()
    ensures legalMoves == LegalMoves(view, bishop)
  {
    legalMoves := CalculateSlidingMoves(view, bishop, CandidateMoveVectorCoordinates, IsExcluded);
  }

  /**
   * The two exclusions fire exactly on the diagonal steps that would wrap from one edge file to
   * the other: a step that is not excluded reaches the genuine diagonal neighbour, and an excluded
   * step onto the board does not.
   */
  lemma ExclusionsGuardEdges()
    ensures forall i :: 0 <= i < |CandidateMoveVectorCoordinates| ==>
              IsKingVector(CandidateMoveVectorCoordinates[i]) && GuardsEdges(IsExcluded, CandidateMoveVectorCoordinates[i])
  {
    forall i, c | 0 <= i < |CandidateMoveVectorCoordinates| && 0 <= c < NumTiles
      ensures StepGuarded(IsExcluded, CandidateMoveVectorCoordinates[i], c)
    {
      ExclusionGuardsStep(CandidateMoveVectorCoordinates[i], c);
    }
  }

  /** One vector from one square: excluded exactly when the step onto the board would wrap. */
  lemma ExclusionGuardsStep(offset: int, coordinate: int)
    requires offset in CandidateMoveVectorCoordinates && IsValidTileCoordinate(coordinate)
    ensures StepGuarded(IsExcluded, offset, coordinate)
  {
    Decompose(coordinate);
    if IsValidTileCoordinate(coordinate + offset) {
      Decompose(coordinate + offset);
    }
  }

  /**
   * Every bishop move is a legal major step to a square on one of its diagonals, reached along
   * that diagonal without wrapping and over empty squares only.
   */
  lemma {:induction false} LegalMovesAreDiagonal(view: BoardView, bishop: Piece)
    requires view.Valid() && IsValidTileCoordinate(bishop.piecePosition)
    ensures forall m :: m in LegalMoves(view, bishop) ==>
              IsMajorStepMove(view, bishop, m) && IsDiagonal(bishop.piecePosition, m.GetDestinationCoordinate())
    ensures forall m :: m in LegalMoves(view, bishop) ==>
              exists i, n :: 0 <= i < |CandidateMoveVectorCoordinates| &&
                             m.GetDestinationCoordinate() == Along(bishop.piecePosition, CandidateMoveVectorCoordinates[i], n) &&
                             Reached(view, bishop.piecePosition, CandidateMoveVectorCoordinates[i], n)
  {
    ExclusionsGuardEdges();
    SlidingMovesOnRays(view, bishop, CandidateMoveVectorCoordinates, IsExcluded);
    SlidingMovesReached(view, bishop, CandidateMoveVectorCoordinates, IsExcluded);
    forall m | m in LegalMoves(view, bishop)
      ensures IsDiagonal(bishop.piecePosition, m.GetDestinationCoordinate())
    {
      var i :| 0 <= i < |CandidateMoveVectorCoordinates| &&
               OnRay(bishop.piecePosition, m.GetDestinationCoordinate(), CandidateMoveVectorCoordinates[i]);
      RayShape(bishop.piecePosition, m.GetDestinationCoordinate(), CandidateMoveVectorCoordinates[i]);
    }
  }

  /**
   * Every square that the bishop reaches along one of its vectors without wrapping and over empty
   * squares only gives a move: a plain move when it is empty, a capture when it holds an
   * opponent's piece.
   */
  lemma {:induction false} ReachedSquaresAreLegalMoves(view: BoardView, bishop: Piece, i: int, n: int)
    requires view.Valid() && IsValidTileCoordinate(bishop.piecePosition) && 0 <= i < |CandidateMoveVectorCoordinates|
    requires Reached(view, bishop.piecePosition, CandidateMoveVectorCoordinates[i], n)
    ensures var destination := Along(bishop.piecePosition, CandidateMoveVectorCoordinates[i], n);
            IsValidTileCoordinate(destination) &&
            (!view.IsOccupied(destination) ==> MajorMove(bishop, destination) in LegalMoves(view, bishop)) &&
            (view.IsEnemyAt(bishop, destination) ==>
               MajorAttackMove(bishop, destination, view.tiles[destination].pieceOnTile) in LegalMoves(view, bishop))
  {
    ExclusionsGuardEdges();
    ReachedAreSlidingMoves(view, bishop, CandidateMoveVectorCoordinates, IsExcluded, i, n);
  }
}
