/**
 * Pawn.java: a push, a double push from the starting rank, and the two diagonal captures
 * (including en passant), each wrapped in a promotion on the last rank.
 */
module Pawns {
  import opened Wrappers
  import opened Seqs
  import opened Squares
  import opened Alliances
  import opened Pieces
  import opened Moves
  import opened BoardViews

  const CandidateMoveCoordinates: seq<int> := [7, 8, 9, 16]

  /** The square `candidateOffset` squares ahead in the pawn's direction of travel. */
  function CandidateDestination(pawn: Piece, candidateOffset: int): int
  {
    pawn.piecePosition + pawn.pieceAlliance.Direction() * candidateOffset
  }

  /** A move onto a promotion square is wrapped in a PawnPromotion. */
  function Promoted(pawn: Piece, destination: int, move: Move): Move
  {
    if pawn.pieceAlliance.IsPawnPromotionSquare(destination) then PawnPromotion(move) else move
  }

  /** The double push is looked at only for a pawn with its first-move flag on its own second rank. */
  predicate IsJumpCandidate(pawn: Piece)
  {
    pawn.isFirstMove &&
    ((IsSeventhRank(pawn.piecePosition) && pawn.pieceAlliance.IsBlack()) ||
     (IsSecondRank(pawn.piecePosition) && pawn.pieceAlliance.IsWhite()))
  }

  /** Offset 7 would wrap from the A-file for Black and from the H-file for White. */
  predicate IsSevenExcluded(pawn: Piece)
  {
    (IsAFile(pawn.piecePosition) && pawn.pieceAlliance.IsBlack()) || (IsHFile(pawn.piecePosition) && pawn.pieceAlliance.IsWhite())
  }

  /** Offset 9 would wrap from the A-file for White and from the H-file for Black. */
  predicate IsNineExcluded(pawn: Piece)
  {
    (IsAFile(pawn.piecePosition) && pawn.pieceAlliance.IsWhite()) || (IsHFile(pawn.piecePosition) && pawn.pieceAlliance.IsBlack())
  }

  /**
   * A diagonal: a capture of an opponent's piece on the destination, or, on an empty destination,
   * an en-passant capture of the board's en-passant pawn when it belongs to the opponent and stands
   * on `enPassantSquare`.
   */
  function DiagonalMoves(view: BoardView, pawn: Piece, destination: int, enPassantSquare: int): seq<Move>
    requires view.Valid() && IsValidTileCoordinate(destination)
  {
    if view.IsOccupied(destination) then
      if view.IsEnemyAt(pawn, destination) then [Promoted(pawn, destination, PawnAttackMove(pawn, destination, view.tiles[destination].pieceOnTile))]
      else []
    else if view.enPassantPawn.Some? && view.enPassantPawn.value.pieceAlliance != pawn.pieceAlliance &&
            view.enPassantPawn.value.piecePosition == enPassantSquare then
      [Promoted(pawn, destination, PawnEnPassantAttack(pawn, destination, view.enPassantPawn.value))]
    else []
  }

  /** What one pass of the loop adds for one offset, following the else-if chain of the source. */
  function CandidateMoves(view: BoardView, pawn: Piece, candidateOffset: int): seq<Move>
    requires view.Valid()
  {
    var destination := CandidateDestination(pawn, candidateOffset);
    var direction := pawn.pieceAlliance.Direction();
    if !IsValidTileCoordinate(destination) then []
    else if candidateOffset == 8 && !view.IsOccupied(destination) then [Promoted(pawn, destination, PawnMove(pawn, destination))]
    else if candidateOffset == 16 && IsJumpCandidate(pawn) then
      var behind := pawn.piecePosition + direction * 8;
      if !view.IsOccupied(behind) && !view.IsOccupied(destination) then [PawnJump(pawn, destination)] else []
    else if candidateOffset == 7 && !IsSevenExcluded(pawn) then DiagonalMoves(view, pawn, destination, pawn.piecePosition - direction)
    else if candidateOffset == 9 && !IsNineExcluded(pawn) then DiagonalMoves(view, pawn, destination, pawn.piecePosition + direction)
    else []
  }

  function CandidateSteps(view: BoardView, pawn: Piece): seq<seq<Move>>
    requires view.Valid()
  {
    seq(|CandidateMoveCoordinates|, i requires 0 <= i < |CandidateMoveCoordinates| => CandidateMoves(view, pawn, CandidateMoveCoordinates[i]))
  }

  /** Pawn.calculateLegalMoves as a value. */
  function LegalMoves(view: BoardView, pawn: Piece): seq<Move>
    requires view.Valid()
  {
    Flatten(CandidateSteps(view, pawn))
  }

  /** Pawn.calculateLegalMoves */
  method CalculateLegalMoves(view: BoardView, pawn: Piece) returns (legalMoves: seq<Move>)
    requires view.Valid()
    ensures legalMoves == LegalMoves(view, pawn)
  {
    var steps := CandidateSteps(view, pawn);
    legalMoves := [];
    var i := 0;
    while i < |CandidateMoveCoordinates|
      invariant 0 <= i <= |CandidateMoveCoordinates|
      invariant legalMoves == Flatten(steps[..i])
    {
      var currentCandidateOffset := CandidateMoveCoordinates[i];
      var direction := pawn.pieceAlliance.Direction();
      var candidateDestinationCoordinate := pawn.piecePosition + direction * currentCandidateOffset;
      FlattenPrefix(steps, i);
      if !IsValidTileCoordinate(candidateDestinationCoordinate) {
        i := i + 1;
        continue;
      }
      var promotes := pawn.pieceAlliance.IsPawnPromotionSquare(candidateDestinationCoordinate);
      if currentCandidateOffset == 8 && !view.IsOccupied(candidateDestinationCoordinate) {
        if promotes {
          legalMoves := legalMoves + [PawnPromotion(PawnMove(pawn, candidateDestinationCoordinate))];
        } else {
          legalMoves := legalMoves + [PawnMove(pawn, candidateDestinationCoordinate)];
        }
      } else if currentCandidateOffset == 16 && IsJumpCandidate(pawn) {
        var behindCandidateDestinationCoordinate := pawn.piecePosition + direction * 8;
        if !view.IsOccupied(behindCandidateDestinationCoordinate) && !view.IsOccupied(candidateDestinationCoordinate) {
          legalMoves := legalMoves + [PawnJump(pawn, candidateDestinationCoordinate)];
        }
      } else if (currentCandidateOffset == 7 && !IsSevenExcluded(pawn)) || (currentCandidateOffset == 9 && !IsNineExcluded(pawn)) {
        var enPassantSquare := if currentCandidateOffset == 7 then pawn.piecePosition - direction else pawn.piecePosition + direction;
        if view.IsOccupied(candidateDestinationCoordinate) {
          var pieceCandidate := view.tiles[candidateDestinationCoordinate].pieceOnTile;
          if pawn.pieceAlliance != pieceCandidate.pieceAlliance {
            if promotes {
              legalMoves := legalMoves + [PawnPromotion(PawnAttackMove(pawn, candidateDestinationCoordinate, pieceCandidate))];
            } else {
              legalMoves := legalMoves + [PawnAttackMove(pawn, candidateDestinationCoordinate, pieceCandidate)];
            }
          }
        } else if view.enPassantPawn.Some? && view.enPassantPawn.value.pieceAlliance != pawn.pieceAlliance &&
                  view.enPassantPawn.value.piecePosition == enPassantSquare {
          if promotes {
            legalMoves := legalMoves + [PawnPromotion(PawnEnPassantAttack(pawn, candidateDestinationCoordinate, view.enPassantPawn.value))];
          } else {
            legalMoves := legalMoves + [PawnEnPassantAttack(pawn, candidateDestinationCoordinate, view.enPassantPawn.value)];
          }
        }
      }
      i := i + 1;
    }
    assert steps[..i] == steps;
  }

  /** Pawn.getPromotionPiece: a queen of the pawn's side on the pawn's square, built with the three-argument constructor. */
  function GetPromotionPiece(pawn: Piece): (queen: Piece)
    ensures queen.kind == Queen && queen.pieceAlliance == pawn.pieceAlliance && queen.piecePosition == pawn.piecePosition
    ensures queen.pieceType == Bishop && !queen.isFirstMove
  {
    NewPieceWithFlag(Queen, pawn.pieceAlliance, pawn.piecePosition, false)
  }

  /** The move inside a promotion, or the move itself. */
  function Unwrapped(m: Move): Move
  {
    if m.PawnPromotion? then m.decoratedMove else m
  }

  /** `destination` is `rows` squares straight ahead of the pawn. */
  predicate IsAhead(pawn: Piece, destination: int, rows: int)
  {
    Column(destination) == Column(pawn.piecePosition) &&
    Row(destination) == Row(pawn.piecePosition) + rows * pawn.pieceAlliance.Direction()
  }

  /** `destination` is one of the two squares diagonally ahead of the pawn. */
  predicate IsForwardDiagonal(pawn: Piece, destination: int)
  {
    Abs(Column(destination) - Column(pawn.piecePosition)) == 1 &&
    Row(destination) == Row(pawn.piecePosition) + pawn.pieceAlliance.Direction()
  }

  /**
   * What a pawn move means on the board: a push to the empty square ahead, a double push from the
   * starting rank over two empty squares, a capture of an opponent's piece diagonally ahead, or an
   * en-passant capture onto the empty square diagonally ahead of the opponent's en-passant pawn
   * standing right behind it; promotion-wrapped exactly on the last rank.
   */
  predicate IsPawnMoveOf(view: BoardView, pawn: Piece, m: Move)
    requires view.Valid()
  {
    var b := Unwrapped(m);
    var direction := pawn.pieceAlliance.Direction();
    && (b.PawnMove? || b.PawnJump? || b.PawnAttackMove? || b.PawnEnPassantAttack?)
    && b.movedPiece == pawn
    && IsValidTileCoordinate(b.destinationCoordinate)
    && (m.PawnPromotion? <==> pawn.pieceAlliance.IsPawnPromotionSquare(b.destinationCoordinate))
    && (b.PawnMove? ==> IsAhead(pawn, b.destinationCoordinate, 1) && !view.IsOccupied(b.destinationCoordinate))
    && (b.PawnJump? ==>
          IsJumpCandidate(pawn) && IsAhead(pawn, b.destinationCoordinate, 2) &&
          !view.IsOccupied(b.destinationCoordinate) && !view.IsOccupied(pawn.piecePosition + 8 * direction))
    && (b.PawnAttackMove? ==>
          IsForwardDiagonal(pawn, b.destinationCoordinate) && view.IsEnemyAt(pawn, b.destinationCoordinate) &&
          b.attackedPiece == view.tiles[b.destinationCoordinate].pieceOnTile)
    && (b.PawnEnPassantAttack? ==>
          IsForwardDiagonal(pawn, b.destinationCoordinate) && !view.IsOccupied(b.destinationCoordinate) &&
          view.enPassantPawn == Some(b.attackedPiece) && b.attackedPiece.pieceAlliance != pawn.pieceAlliance &&
          b.attackedPiece.piecePosition == b.destinationCoordinate - 8 * direction)
  }

  lemma CandidateMovesSound(view: BoardView, pawn: Piece, candidateOffset: int)
    requires view.Valid() && IsValidTileCoordinate(pawn.piecePosition) && candidateOffset in CandidateMoveCoordinates
    ensures |CandidateMoves(view, pawn, candidateOffset)| <= 1
    ensures forall m :: m in CandidateMoves(view, pawn, candidateOffset) ==> IsPawnMoveOf(view, pawn, m)
  {
    var destination := CandidateDestination(pawn, candidateOffset);
    Decompose(pawn.piecePosition);
    if IsValidTileCoordinate(destination) {
      Decompose(destination);
    }
  }

  /** Soundness: every pawn move is one of the four kinds above, and there are at most four. */
  lemma {:induction false} LegalMovesSound(view: BoardView, pawn: Piece)
    requires view.Valid() && IsValidTileCoordinate(pawn.piecePosition)
    ensures forall m :: m in LegalMoves(view, pawn) ==> IsPawnMoveOf(view, pawn, m)
    ensures |LegalMoves(view, pawn)| <= 4
  {
    var steps := CandidateSteps(view, pawn);
    forall m | m in LegalMoves(view, pawn)
      ensures IsPawnMoveOf(view, pawn, m)
    {
      FlattenMember(steps, m);
      var i :| 0 <= i < |steps| && m in steps[i];
      CandidateMovesSound(view, pawn, CandidateMoveCoordinates[i]);
    }
    forall i | 0 <= i < |steps|
      ensures |steps[i]| <= 1
    {
      CandidateMovesSound(view, pawn, CandidateMoveCoordinates[i]);
    }
    FlattenOfSingletons(steps);
  }

  lemma MemberOfStep(view: BoardView, pawn: Piece, i: int, m: Move)
    requires view.Valid() && 0 <= i < |CandidateMoveCoordinates|
    requires m in CandidateMoves(view, pawn, CandidateMoveCoordinates[i])
    ensures m in LegalMoves(view, pawn)
  {
    var steps := CandidateSteps(view, pawn);
    assert m in steps[i];
    FlattenMember(steps, m);
  }

  /** Completeness of the pushes: onto an empty square ahead, and two ahead from the starting rank over empty squares. */
  lemma {:induction false} PushesAreLegal(view: BoardView, pawn: Piece)
    requires view.Valid() && IsValidTileCoordinate(pawn.piecePosition)
    ensures var ahead := pawn.piecePosition + 8 * pawn.pieceAlliance.Direction();
            IsValidTileCoordinate(ahead) && !view.IsOccupied(ahead) ==>
              Promoted(pawn, ahead, PawnMove(pawn, ahead)) in LegalMoves(view, pawn)
    ensures var ahead := pawn.piecePosition + 8 * pawn.pieceAlliance.Direction();
            var twoAhead := pawn.piecePosition + 16 * pawn.pieceAlliance.Direction();
            IsJumpCandidate(pawn) && !view.IsOccupied(ahead) && !view.IsOccupied(twoAhead) ==>
              PawnJump(pawn, twoAhead) in LegalMoves(view, pawn)
  {
    var ahead := pawn.piecePosition + 8 * pawn.pieceAlliance.Direction();
    var twoAhead := pawn.piecePosition + 16 * pawn.pieceAlliance.Direction();
    if IsValidTileCoordinate(ahead) && !view.IsOccupied(ahead) {
      MemberOfStep(view, pawn, 1, Promoted(pawn, ahead, PawnMove(pawn, ahead)));
    }
    if IsJumpCandidate(pawn) && !view.IsOccupied(ahead) && !view.IsOccupied(twoAhead) {
      MemberOfStep(view, pawn, 3, PawnJump(pawn, twoAhead));
    }
  }

  /** Each square diagonally ahead is offset 7 or offset 9 away, and that offset is not excluded. */
  lemma ForwardDiagonalIsCandidate(pawn: Piece, destination: int)
    requires IsValidTileCoordinate(pawn.piecePosition) && IsValidTileCoordinate(destination)
    requires IsForwardDiagonal(pawn, destination)
    ensures (destination == CandidateDestination(pawn, 7) && !IsSevenExcluded(pawn)) ||
            (destination == CandidateDestination(pawn, 9) && !IsNineExcluded(pawn))
  {
    Decompose(pawn.piecePosition);
    Decompose(destination);
  }

  /**
   * Completeness of the captures: an opponent's piece diagonally ahead can be taken, and so can the
   * opponent's en-passant pawn right behind an empty square diagonally ahead.
   */
  lemma {:induction false} CapturesAreLegal(view: BoardView, pawn: Piece, destination: int)
    requires view.Valid() && IsValidTileCoordinate(pawn.piecePosition) && IsValidTileCoordinate(destination)
    requires IsForwardDiagonal(pawn, destination)
    ensures view.IsEnemyAt(pawn, destination) ==>
              Promoted(pawn, destination, PawnAttackMove(pawn, destination, view.tiles[destination].pieceOnTile)) in LegalMoves(view, pawn)
    ensures !view.IsOccupied(destination) && view.enPassantPawn.Some? &&
            view.enPassantPawn.value.pieceAlliance != pawn.pieceAlliance &&
            view.enPassantPawn.value.piecePosition == destination - 8 * pawn.pieceAlliance.Direction() ==>
              Promoted(pawn, destination, PawnEnPassantAttack(pawn, destination, view.enPassantPawn.value)) in LegalMoves(view, pawn)
  {
    ForwardDiagonalIsCandidate(pawn, destination);
    var i := if destination == CandidateDestination(pawn, 7) && !IsSevenExcluded(pawn) then 0 else 2;
    var step := CandidateMoves(view, pawn, CandidateMoveCoordinates[i]);
    if view.IsEnemyAt(pawn, destination) {
      MemberOfStep(view, pawn, i, step[0]);
    }
    if !view.IsOccupied(destination) && view.enPassantPawn.Some? &&
       view.enPassantPawn.value.pieceAlliance != pawn.pieceAlliance &&
       view.enPassantPawn.value.piecePosition == destination - 8 * pawn.pieceAlliance.Direction() {
      MemberOfStep(view, pawn, i, step[0]);
    }
  }
}
