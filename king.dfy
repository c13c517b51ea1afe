/** King.java: one step in each of the eight directions, then the castles of the current player when there is one. */
module Kings {
  import opened Wrappers
  import opened Seqs
  import opened Squares
  import opened Pieces
  import opened Moves
  import opened BoardViews

  const CandidateMoveCoordinates: seq<int> := [-9, -8, -7, -1, 1, 7, 8, 9]

  predicate IsFirstColumnExclusion(currentPosition: int, candidateOffset: int)
  {
    IsAFile(currentPosition) && (candidateOffset == -9 || candidateOffset == -1 || candidateOffset == 7)
  }

  predicate IsEighthColumnExclusion(currentPosition: int, candidateOffset: int)
  {
    IsHFile(currentPosition) && (candidateOffset == -7 || candidateOffset == 1 || candidateOffset == 9)
  }

  predicate IsExcluded(currentPosition: int, candidateOffset: int)
  {
    IsFirstColumnExclusion(currentPosition, candidateOffset) || IsEighthColumnExclusion(currentPosition, candidateOffset)
  }

  /** What one pass of the loop adds for one offset. */
  function CandidateMoves(view: BoardView, king: Piece, candidateOffset: int): seq<Move>
    requires view.Valid()
  {
    var candidateDestinationCoordinate := king.piecePosition + candidateOffset;
    if IsExcluded(king.piecePosition, candidateOffset) then []
    else if !IsValidTileCoordinate(candidateDestinationCoordinate) then []
    else view.MajorStep(king, candidateDestinationCoordinate)
  }

  function CandidateSteps(view: BoardView, king: Piece): seq<seq<Move>>
    requires view.Valid()
  {
    seq(|CandidateMoveCoordinates|, i requires 0 <= i < |CandidateMoveCoordinates| => CandidateMoves(view, king, CandidateMoveCoordinates[i]))
  }

  /** The single steps of the king, in offset order. */
  function StepMoves(view: BoardView, king: Piece): seq<Move>
    requires view.Valid()
  {
    Flatten(CandidateSteps(view, king))
  }

  /** The current player's castles, or nothing when the board has no current player yet. */
  function CastleMoves(view: BoardView): seq<Move>
  {
    match view.currentPlayerCastles
    case Some(castles) => castles
    case None => []
  }

  /** King.calculateLegalMoves as a value. */
  function LegalMoves(view: BoardView, king: Piece): seq<Move>
    requires view.Valid()
  {
    StepMoves(view, king) + CastleMoves(view)
  }

  /** King.calculateLegalMoves */
  method CalculateLegalMoves(view: BoardView, king: Piece) returns (legalMoves: seq<Move>)
    requires view.Valid()
    ensures legalMoves == LegalMoves(view, king)
  {
    var steps := CandidateSteps(view, king);
    legalMoves := [];
    var i := 0;
    while i < |CandidateMoveCoordinates|
      invariant 0 <= i <= |CandidateMoveCoordinates|
      invariant legalMoves == Flatten(steps[..i])
    {
      var currentCandidateOffset := CandidateMoveCoordinates[i];
      var candidateDestinationCoordinate := king.piecePosition + currentCandidateOffset;
      FlattenPrefix(steps, i);
      if !IsFirstColumnExclusion(king.piecePosition, currentCandidateOffset) &&
         !IsEighthColumnExclusion(king.piecePosition, currentCandidateOffset) {
        if IsValidTileCoordinate(candidateDestinationCoordinate) {
          if !view.IsOccupied(candidateDestinationCoordinate) {
            legalMoves := legalMoves + [MajorMove(king, candidateDestinationCoordinate)];
          } else {
            var pieceAtDestination := view.tiles[candidateDestinationCoordinate].pieceOnTile;
            if king.pieceAlliance != pieceAtDestination.pieceAlliance {
              legalMoves := legalMoves + [MajorAttackMove(king, candidateDestinationCoordinate, pieceAtDestination)];
            }
          }
        }
      }
      i := i + 1;
    }
    assert steps[..i] == steps;
    if view.currentPlayerCastles.Some? {
      legalMoves := legalMoves + view.currentPlayerCastles.value;
    }
  }

  /** From a square on the board, an offset survives the exclusions exactly when it reaches a neighbouring square. */
  lemma ExclusionsAreExactlyTheWraps(position: int, candidateOffset: int)
    requires IsValidTileCoordinate(position) && IsValidTileCoordinate(position + candidateOffset)
    requires candidateOffset in CandidateMoveCoordinates
    ensures IsExcluded(position, candidateOffset) <==> !IsAdjacent(position, position + candidateOffset)
  {
    Decompose(position);
    Decompose(position + candidateOffset);
  }

  /** Every neighbouring square is one of the eight offsets away. */
  lemma NeighbourIsCandidate(position: int, destination: int)
    requires IsValidTileCoordinate(position) && IsValidTileCoordinate(destination)
    requires IsAdjacent(position, destination)
    ensures destination - position in CandidateMoveCoordinates
  {
    Decompose(position);
    Decompose(destination);
  }

  /** Soundness: each single step is a legal major step onto a neighbouring square, and there are at most eight. */
  lemma {:induction false} StepMovesAreAdjacent(view: BoardView, king: Piece)
    requires view.Valid() && IsValidTileCoordinate(king.piecePosition)
    ensures forall m :: m in StepMoves(view, king) ==>
              IsMajorStepMove(view, king, m) && IsAdjacent(king.piecePosition, m.GetDestinationCoordinate())
    ensures |StepMoves(view, king)| <= 8
  {
    var steps := CandidateSteps(view, king);
    forall m | m in StepMoves(view, king)
      ensures IsMajorStepMove(view, king, m) && IsAdjacent(king.piecePosition, m.GetDestinationCoordinate())
    {
      FlattenMember(steps, m);
      var i :| 0 <= i < |steps| && m in steps[i];
      var o := CandidateMoveCoordinates[i];
      MajorStepShape(view, king, king.piecePosition + o);
      ExclusionsAreExactlyTheWraps(king.piecePosition, o);
    }
    forall i | 0 <= i < |steps|
      ensures |steps[i]| <= 1
    {
      var o := CandidateMoveCoordinates[i];
      if IsValidTileCoordinate(king.piecePosition + o) {
        MajorStepShape(view, king, king.piecePosition + o);
      }
    }
    FlattenOfSingletons(steps);
  }

  /** Completeness: the king can step to every neighbouring square that does not hold one of its own pieces. */
  lemma {:induction false} NeighboursAreStepMoves(view: BoardView, king: Piece, destination: int)
    requires view.Valid() && IsValidTileCoordinate(king.piecePosition) && IsValidTileCoordinate(destination)
    requires IsAdjacent(king.piecePosition, destination)
    ensures !view.IsOccupied(destination) ==> MajorMove(king, destination) in StepMoves(view, king)
    ensures view.IsEnemyAt(king, destination) ==>
              MajorAttackMove(king, destination, view.tiles[destination].pieceOnTile) in StepMoves(view, king)
  {
    var steps := CandidateSteps(view, king);
    NeighbourIsCandidate(king.piecePosition, destination);
    var o := destination - king.piecePosition;
    var i :| 0 <= i < |CandidateMoveCoordinates| && CandidateMoveCoordinates[i] == o;
    ExclusionsAreExactlyTheWraps(king.piecePosition, o);
    assert steps[i] == view.MajorStep(king, destination);
    forall m | m in view.MajorStep(king, destination)
      ensures m in StepMoves(view, king)
    {
      FlattenMember(steps, m);
    }
  }

  /** The current player's castles follow the steps when the board has a current player, and there are none otherwise. */
  lemma CastlesAppendedOnlyWithCurrentPlayer(view: BoardView, king: Piece)
    requires view.Valid()
    ensures view.currentPlayerCastles.None? ==> LegalMoves(view, king) == StepMoves(view, king)
    ensures view.currentPlayerCastles.Some? ==>
              LegalMoves(view, king)[..|StepMoves(view, king)|] == StepMoves(view, king) &&
              LegalMoves(view, king)[|StepMoves(view, king)|..] == view.currentPlayerCastles.value
  {
  }
}
