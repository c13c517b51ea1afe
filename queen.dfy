/** Queen.java: sliding walks along all eight directions. */
module Queens {
  import opened Seqs
  import opened Squares
  import opened Pieces
  import opened Moves
  import opened BoardViews
  import opened Sliding
  import Bishops
  import Rooks

  const CandidateMoveVectorCoordinates: seq<int> := [-9, -8, -7, -1, 1, 7, 8, 9]

  predicate IsFirstColumnExclusion(currentPosition: int, candidateOffset: int)
  {
    IsAFile(currentPosition) && (candidateOffset == -9 || candidateOffset == -1 || candidateOffset == 7)
  }

  predicate IsEighthColumnExclusion(currentPosition: int, candidateOffset: int)
  {
    IsHFile(currentPosition) && (candidateOffset == -7 || candidateOffset == 1 || candidateOffset == 9)
  }

  predicate IsExcluded(currentPosition: int, candidateOffset: int)
  {
    IsFirstColumnExclusion(currentPosition, candidateOffset) || IsEighthColumnExclusion(currentPosition, candidateOffset)
  }

  /** Queen.calculateLegalMoves as a value. */
  function LegalMoves(view: BoardView, queen: Piece): seq<Move>
    requires view.Valid()
  {
    SlidingMoves(view, queen, CandidateMoveVectorCoordinates, IsExcluded)
  }

  /** Queen.calculateLegalMoves */
  method CalculateLegalMoves(view: BoardView, queen: Piece) returns (legalMoves: seq<Move>)
    requires view.Valid()
    ensures legalMoves == LegalMoves(view, queen)
  {
    legalMoves := CalculateSlidingMoves(view, queen, CandidateMoveVectorCoordinates, IsExcluded);
  }

  /** Along each diagonal the queen's exclusions are the bishop's; along each rank and file they are the rook's. */
  lemma ExclusionsMatchBishopAndRook(currentPosition: int, candidateOffset: int)
    ensures candidateOffset in Bishops.CandidateMoveVectorCoordinates ==>
              IsExcluded(currentPosition, candidateOffset) == Bishops.IsExcluded(currentPosition, candidateOffset)
    ensures candidateOffset in Rooks.CandidateMoveVectorCoordinates ==>
              IsExcluded(currentPosition, candidateOffset) == Rooks.IsExcluded(currentPosition, candidateOffset)
  {
  }

  /**
   * The queen's exclusions fire exactly on the steps along its eight vectors that would wrap from
   * one edge file to the other.
   */
  lemma ExclusionsGuardEdges()
    ensures forall i :: 0 <= i < |CandidateMoveVectorCoordinates| ==>
              IsKingVector(CandidateMoveVectorCoordinates[i]) && GuardsEdges(IsExcluded, CandidateMoveVectorCoordinates[i])
  {
    forall i, c | 0 <= i < |CandidateMoveVectorCoordinates| && 0 <= c < NumTiles
      ensures StepGuarded(IsExcluded, CandidateMoveVectorCoordinates[i], c)
    {
      ExclusionGuardsStep(CandidateMoveVectorCoordinates[i], c);
    }
  }

  /** One vector from one square: excluded exactly when the step onto the board would wrap. */
  lemma ExclusionGuardsStep(offset: int, coordinate: int)
    requires offset in CandidateMoveVectorCoordinates && IsValidTileCoordinate(coordinate)
    ensures StepGuarded(IsExcluded, offset, coordinate)
  {
    Decompose(coordinate);
    if IsValidTileCoordinate(coordinate + offset) {
      Decompose(coordinate + offset);
    }
  }

  /** One queen ray equals the bishop's or the rook's ray along the same vector. */
  lemma RayMatches(view: BoardView, queen: Piece, offset: int, other: (int, int) -> bool)
    requires view.Valid() && offset != 0
    requires forall c :: IsExcluded(c, offset) == other(c, offset)
    ensures Ray(view, queen, offset, IsExcluded) == Ray(view, queen, offset, other)
  {
    if IsValidTileCoordinate(queen.piecePosition) {
      WalkDependsOnlyOnExclusion(view, queen, offset, queen.piecePosition, IsExcluded, other);
    }
  }

  lemma RaysMatch(view: BoardView, queen: Piece)
    requires view.Valid()
    ensures var qs := Rays(view, queen, CandidateMoveVectorCoordinates, IsExcluded);
            var bs := Rays(view, queen, Bishops.CandidateMoveVectorCoordinates, Bishops.IsExcluded);
            var rs := Rays(view, queen, Rooks.CandidateMoveVectorCoordinates, Rooks.IsExcluded);
            qs == [bs[0], rs[0], bs[1], rs[1], rs[2], bs[2], rs[3], bs[3]]
  {
    RayMatches(view, queen, -9, Bishops.IsExcluded);
    RayMatches(view, queen, -7, Bishops.IsExcluded);
    RayMatches(view, queen, 7, Bishops.IsExcluded);
    RayMatches(view, queen, 9, Bishops.IsExcluded);
    RayMatches(view, queen, -8, Rooks.IsExcluded);
    RayMatches(view, queen, -1, Rooks.IsExcluded);
    RayMatches(view, queen, 1, Rooks.IsExcluded);
    RayMatches(view, queen, 8, Rooks.IsExcluded);
  }

  /** Membership in the queen's interleaving of four bishop rays and four rook rays. */
  lemma {:induction false} InterleavedMembers<T>(qs: seq<seq<T>>, bs: seq<seq<T>>, rs: seq<seq<T>>)
    requires |bs| == 4 && |rs| == 4
    requires qs == [bs[0], rs[0], bs[1], rs[1], rs[2], bs[2], rs[3], bs[3]]
    ensures forall x :: x in Flatten(qs) <==> x in Flatten(bs) || x in Flatten(rs)
  {
    forall x
      ensures x in Flatten(qs) <==> x in Flatten(bs) || x in Flatten(rs)
    {
      FlattenMember(qs, x);
      FlattenMember(bs, x);
      FlattenMember(rs, x);
      if x in Flatten(bs) {
        var j :| 0 <= j < |bs| && x in bs[j];
        assert qs[[0, 2, 5, 7][j]] == bs[j];
      }
      if x in Flatten(rs) {
        var j :| 0 <= j < |rs| && x in rs[j];
        assert qs[[1, 3, 4, 6][j]] == rs[j];
      }
    }
  }

  /**
   * A queen's moves are exactly the moves a bishop and a rook on its square would have
   * (moving the queen), so blocking and capturing follow the same rules.
   */
  lemma LegalMovesAreBishopAndRookMoves(view: BoardView, queen: Piece)
    requires view.Valid()
    ensures forall m :: m in LegalMoves(view, queen) <==>
              m in Bishops.LegalMoves(view, queen) || m in Rooks.LegalMoves(view, queen)
  {
    RaysMatch(view, queen);
    InterleavedMembers(Rays(view, queen, CandidateMoveVectorCoordinates, IsExcluded),
                       Rays(view, queen, Bishops.CandidateMoveVectorCoordinates, Bishops.IsExcluded),
                       Rays(view, queen, Rooks.CandidateMoveVectorCoordinates, Rooks.IsExcluded));
  }

  /**
   * Every queen move is a legal major step along a diagonal, a rank or a file, reached along one
   * of its vectors without wrapping and over empty squares only.
   */
  lemma {:induction false} LegalMovesAreLines(view: BoardView, queen: Piece)
    requires view.Valid() && IsValidTileCoordinate(queen.piecePosition)
    ensures forall m :: m in LegalMoves(view, queen) ==>
              IsMajorStepMove(view, queen, m) &&
              (IsDiagonal(queen.piecePosition, m.GetDestinationCoordinate()) || IsOrthogonal(queen.piecePosition, m.GetDestinationCoordinate()))
    ensures forall m :: m in LegalMoves(view, queen) ==>
              exists i, n :: 0 <= i < |CandidateMoveVectorCoordinates| &&
                             m.GetDestinationCoordinate() == Along(queen.piecePosition, CandidateMoveVectorCoordinates[i], n) &&
                             Reached(view, queen.piecePosition, CandidateMoveVectorCoordinates[i], n)
  {
    ExclusionsGuardEdges();
    SlidingMovesReached(view, queen, CandidateMoveVectorCoordinates, IsExcluded);
    LegalMovesAreBishopAndRookMoves(view, queen);
    Bishops.LegalMovesAreDiagonal(view, queen);
    Rooks.LegalMovesAreOrthogonal(view, queen);
  }

  /**
   * Every square that the queen reaches along one of its vectors without wrapping and over empty
   * squares only gives a move: a plain move when it is empty, a capture when it holds an
   * opponent's piece.
   */
  lemma {:induction false} ReachedSquaresAreLegalMoves(view: BoardView, queen: Piece, i: int, n: int)
    requires view.Valid() && IsValidTileCoordinate(queen.piecePosition) && 0 <= i < |CandidateMoveVectorCoordinates|
    requires Reached(view, queen.piecePosition, CandidateMoveVectorCoordinates[i], n)
    ensures var destination := Along(queen.piecePosition, CandidateMoveVectorCoordinates[i], n);
            IsValidTileCoordinate(destination) &&
            (!view.IsOccupied(destination) ==> MajorMove(queen, destination) in LegalMoves(view, queen)) &&
            (view.IsEnemyAt(queen, destination) ==>
               MajorAttackMove(queen, destination, view.tiles[destination].pieceOnTile) in LegalMoves(view, queen))
  {
    ExclusionsGuardEdges();
    ReachedAreSlidingMoves(view, queen, CandidateMoveVectorCoordinates, IsExcluded, i, n);
  }
}
