/** Knight.java: the eight L-shaped offsets, cut at the board's edges by four file exclusions. */
module Knights {
  import opened Seqs
  import opened Squares
  import opened Pieces
  import opened Moves
  import opened BoardViews

  const CandidateMoveCoordinates: seq<int> := [-17, -15, -10, -6, 6, 10, 15, 17]

  predicate IsFirstColumnExclusion(currentPosition: int, candidateOffset: int)
  {
    IsAFile(currentPosition) && (candidateOffset == -17 || candidateOffset == -10 || candidateOffset == 6 || candidateOffset == 15)
  }

  predicate IsSecondColumnExclusion(currentPosition: int, candidateOffset: int)
  {
    IsBFile(currentPosition) && (candidateOffset == -10 || candidateOffset == 6)
  }

  predicate IsSeventhColumnExclusion(currentPosition: int, candidateOffset: int)
  {
    IsGFile(currentPosition) && (candidateOffset == -6 || candidateOffset == 10)
  }

  predicate IsEighthColumnExclusion(currentPosition: int, candidateOffset: int)
  {
    IsHFile(currentPosition) && (candidateOffset == -15 || candidateOffset == -6 || candidateOffset == 10 || candidateOffset == 17)
  }

  predicate IsExcluded(currentPosition: int, candidateOffset: int)
  {
    IsFirstColumnExclusion(currentPosition, candidateOffset) || IsSecondColumnExclusion(currentPosition, candidateOffset) ||
    IsSeventhColumnExclusion(currentPosition, candidateOffset) || IsEighthColumnExclusion(currentPosition, candidateOffset)
  }

  /** What one pass of the loop adds for one offset. */
  function CandidateMoves(view: BoardView, knight: Piece, candidateOffset: int): seq<Move>
    requires view.Valid()
  {
    var candidateDestinationCoordinate := knight.piecePosition + candidateOffset;
    if !IsValidTileCoordinate(candidateDestinationCoordinate) || IsExcluded(knight.piecePosition, candidateOffset) then []
    else view.MajorStep(knight, candidateDestinationCoordinate)
  }

  function CandidateSteps(view: BoardView, knight: Piece): seq<seq<Move>>
    requires view.Valid()
  {
    seq(|CandidateMoveCoordinates|, i requires 0 <= i < |CandidateMoveCoordinates| => CandidateMoves(view, knight, CandidateMoveCoordinates[i]))
  }

  /** Knight.calculateLegalMoves as a value: the offsets' contributions in offset order. */
  function LegalMoves(view: BoardView, knight: Piece): seq<Move>
    requires view.Valid()
  {
    Flatten(CandidateSteps(view, knight))
  }

  /** Knight.calculateLegalMoves */
  method CalculateLegalMoves(view: BoardView, knight: Piece) returns (legalMoves: seq<Move>)
    requires view.Valid()
    ensures legalMoves == LegalMoves(view, knight)
  {
    var steps := CandidateSteps(view, knight);
    legalMoves := [];
    var i := 0;
    while i < |CandidateMoveCoordinates|
      invariant 0 <= i <= |CandidateMoveCoordinates|
      invariant legalMoves == Flatten(steps[..i])
    {
      var currentCandidateOffset := CandidateMoveCoordinates[i];
      var candidateDestinationCoordinate := knight.piecePosition + currentCandidateOffset;
      FlattenPrefix(steps, i);
      if IsValidTileCoordinate(candidateDestinationCoordinate) {
        if !IsExcluded(knight.piecePosition, currentCandidateOffset) {
          if !view.IsOccupied(candidateDestinationCoordinate) {
            legalMoves := legalMoves + [MajorMove(knight, candidateDestinationCoordinate)];
          } else {
            var pieceAtDestination := view.tiles[candidateDestinationCoordinate].pieceOnTile;
            if knight.pieceAlliance != pieceAtDestination.pieceAlliance {
              legalMoves := legalMoves + [MajorAttackMove(knight, candidateDestinationCoordinate, pieceAtDestination)];
            }
          }
        }
      }
      i := i + 1;
    }
    assert steps[..i] == steps;
  }

  /** From a square on the board, an offset survives the exclusions exactly when it is a real L-shaped jump. */
  lemma ExclusionsAreExactlyTheWraps(position: int, candidateOffset: int)
    requires IsValidTileCoordinate(position) && IsValidTileCoordinate(position + candidateOffset)
    requires candidateOffset in CandidateMoveCoordinates
    ensures !IsExcluded(position, candidateOffset) <==> IsKnightJump(position, position + candidateOffset)
  {
    Decompose(position);
    Decompose(position + candidateOffset);
  }

  /** Every L-shaped jump between two squares is one of the eight offsets. */
  lemma JumpIsCandidate(position: int, destination: int)
    requires IsValidTileCoordinate(position) && IsValidTileCoordinate(destination)
    requires IsKnightJump(position, destination)
    ensures destination - position in CandidateMoveCoordinates
  {
    Decompose(position);
    Decompose(destination);
  }

  /**
   * Soundness: every move is the knight's own MajorMove to an empty square or MajorAttackMove on
   * an opponent's piece, along an L-shaped jump that stays on the board.
   */
  lemma {:induction false} LegalMovesAreJumps(view: BoardView, knight: Piece)
    requires view.Valid() && IsValidTileCoordinate(knight.piecePosition)
    ensures forall m :: m in LegalMoves(view, knight) ==>
              IsMajorStepMove(view, knight, m) && IsKnightJump(knight.piecePosition, m.destinationCoordinate)
    ensures |LegalMoves(view, knight)| <= 8
  {
    var steps := CandidateSteps(view, knight);
    forall m | m in LegalMoves(view, knight)
      ensures IsMajorStepMove(view, knight, m) && IsKnightJump(knight.piecePosition, m.destinationCoordinate)
    {
      FlattenMember(steps, m);
      var i :| 0 <= i < |steps| && m in steps[i];
      var o := CandidateMoveCoordinates[i];
      MajorStepShape(view, knight, knight.piecePosition + o);
      ExclusionsAreExactlyTheWraps(knight.piecePosition, o);
    }
    forall i | 0 <= i < |steps|
      ensures |steps[i]| <= 1
    {
      var o := CandidateMoveCoordinates[i];
      if IsValidTileCoordinate(knight.piecePosition + o) {
        MajorStepShape(view, knight, knight.piecePosition + o);
      }
    }
    FlattenOfSingletons(steps);
  }

  /** Completeness: the knight can go to every L-shaped jump square that does not hold one of its own pieces. */
  lemma {:induction false} JumpsAreLegalMoves(view: BoardView, knight: Piece, destination: int)
    requires view.Valid() && IsValidTileCoordinate(knight.piecePosition) && IsValidTileCoordinate(destination)
    requires IsKnightJump(knight.piecePosition, destination)
    ensures forall m :: m in view.MajorStep(knight, destination) ==> m in LegalMoves(view, knight)
    ensures !view.IsOccupied(destination) ==> MajorMove(knight, destination) in LegalMoves(view, knight)
    ensures view.IsEnemyAt(knight, destination) ==>
              MajorAttackMove(knight, destination, view.tiles[destination].pieceOnTile) in LegalMoves(view, knight)
  {
    var steps := CandidateSteps(view, knight);
    JumpIsCandidate(knight.piecePosition, destination);
    var o := destination - knight.piecePosition;
    var i :| 0 <= i < |CandidateMoveCoordinates| && CandidateMoveCoordinates[i] == o;
    ExclusionsAreExactlyTheWraps(knight.piecePosition, o);
    assert steps[i] == view.MajorStep(knight, destination);
    forall m | m in view.MajorStep(knight, destination)
      ensures m in LegalMoves(view, knight)
    {
      FlattenMember(steps, m);
    }
  }
}
