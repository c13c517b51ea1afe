/**
 * The move classes of Move.java as one datatype. A Java move also holds the board it was
 * generated on; here the board is passed to execute instead (see Execution).
 */
module Moves {
  import opened Wrappers
  import opened Alliances
  import opened Pieces

  datatype Move =
    | MajorMove(movedPiece: Piece, destinationCoordinate: int)
    | MajorAttackMove(movedPiece: Piece, destinationCoordinate: int, attackedPiece: Piece)
    | PawnMove(movedPiece: Piece, destinationCoordinate: int)
    | PawnAttackMove(movedPiece: Piece, destinationCoordinate: int, attackedPiece: Piece)
    | PawnEnPassantAttack(movedPiece: Piece, destinationCoordinate: int, attackedPiece: Piece)
    | PawnJump(movedPiece: Piece, destinationCoordinate: int)
    | PawnPromotion(decoratedMove: Move)
    | KingSideCastleMove(movedPiece: Piece, destinationCoordinate: int, castleRook: Piece,
                         castleRookStart: int, castleRookDestination: int)
    | QueenSideCastleMove(movedPiece: Piece, destinationCoordinate: int, castleRook: Piece,
                          castleRookStart: int, castleRookDestination: int)
    | NullMove
  {
    /** getMovedPiece; None for the null move, whose moved piece is Java's null. */
    function GetMovedPiece(): Option<Piece>
    {
      match this
      case PawnPromotion(decorated) => decorated.GetMovedPiece()
      case NullMove => None
      case _ => Some(movedPiece)
    }

    /** getDestinationCoordinate; the null move is built with destination 65. */
    function GetDestinationCoordinate(): int
    {
      match this
      case PawnPromotion(decorated) => decorated.GetDestinationCoordinate()
      case NullMove => 65
      case _ => destinationCoordinate
    }

    /** getCurrentCoordinate: the moved piece's square, -1 for the null move. */
    function GetCurrentCoordinate(): int
    {
      match this
      case PawnPromotion(decorated) => decorated.GetCurrentCoordinate()
      case NullMove => -1
      case _ => movedPiece.piecePosition
    }

    /** `this instanceof AttackMove`. */
    predicate IsAttackMoveClass()
    {
      MajorAttackMove? || PawnAttackMove? || PawnEnPassantAttack?
    }

    /** `this instanceof CastleMove`. */
    predicate IsCastleMoveClass()
    {
      KingSideCastleMove? || QueenSideCastleMove?
    }

    /** isAttack: true for the AttackMove classes, delegated by PawnPromotion. */
    predicate IsAttack()
    {
      match this
      case PawnPromotion(decorated) => decorated.IsAttack()
      case _ => IsAttackMoveClass()
    }

    /** getAttackedPiece: the captured piece of an AttackMove, delegated by PawnPromotion, null otherwise. */
    function GetAttackedPiece(): Option<Piece>
    {
      match this
      case PawnPromotion(decorated) => decorated.GetAttackedPiece()
      case MajorAttackMove(_, _, attacked) => Some(attacked)
      case PawnAttackMove(_, _, attacked) => Some(attacked)
      case PawnEnPassantAttack(_, _, attacked) => Some(attacked)
      case _ => None
    }

    /** isCastlingMove: only the CastleMove classes (PawnPromotion does not delegate it). */
    predicate IsCastlingMove()
    {
      IsCastleMoveClass()
    }

    /** Move.equals: same moved piece, destination and origin. The receiver's piece must not be null. */
    predicate SameMove(other: Move)
    {
      GetMovedPiece().Some? && GetMovedPiece() == other.GetMovedPiece() &&
      GetDestinationCoordinate() == other.GetDestinationCoordinate() &&
      GetCurrentCoordinate() == other.GetCurrentCoordinate()
    }

    /** AttackMove.equals: the other is an AttackMove, Move.equals holds, and the attacked pieces agree. */
    predicate SameAttack(other: Move)
    {
      other.IsAttackMoveClass() && SameMove(other) && GetAttackedPiece() == other.GetAttackedPiece()
    }

    /** CastleMove.equals: the other is a CastleMove, Move.equals holds, and the castle rooks agree. */
    predicate SameCastle(other: Move)
    {
      IsCastleMoveClass() && other.IsCastleMoveClass() && SameMove(other) && castleRook == other.castleRook
    }

    /**
     * `this.equals(other)` with the receiver's own override: each class first asks that the
     * other be an instance of that class (so a PawnMove accepts a PawnJump, and a PawnAttackMove
     * accepts a PawnEnPassantAttack, but not the other way round), then defers to its superclass.
     * For the null move receiver Java raises a NullPointerException unless both are the same
     * object; the model answers false there.
     */
    predicate Equals(other: Move)
    {
      this == other ||
      match this
      case MajorMove(_, _) => other.MajorMove? && SameMove(other)
      case MajorAttackMove(_, _, _) => other.MajorAttackMove? && SameAttack(other)
      case PawnMove(_, _) => (other.PawnMove? || other.PawnJump?) && SameMove(other)
      case PawnJump(_, _) => (other.PawnMove? || other.PawnJump?) && SameMove(other)
      case PawnAttackMove(_, _, _) => (other.PawnAttackMove? || other.PawnEnPassantAttack?) && SameAttack(other)
      case PawnEnPassantAttack(_, _, _) => other.PawnEnPassantAttack? && SameAttack(other)
      case PawnPromotion(_) => other.PawnPromotion? && SameMove(other)
      case KingSideCastleMove(_, _, _, _, _) => other.KingSideCastleMove? && SameCastle(other)
      case QueenSideCastleMove(_, _, _, _, _) => other.QueenSideCastleMove? && SameCastle(other)
      case NullMove => false
    }
  }

  /**
   * Equal moves have the same moved piece, destination and origin; attack moves also the same
   * attacked piece, castles also the same rook.
   */
  lemma EqualMovesAgree(m: Move, n: Move)
    requires m.Equals(n)
    ensures m.GetMovedPiece() == n.GetMovedPiece()
    ensures m.GetDestinationCoordinate() == n.GetDestinationCoordinate()
    ensures m.GetCurrentCoordinate() == n.GetCurrentCoordinate()
    ensures m.IsAttackMoveClass() ==> n.IsAttackMoveClass() && m.GetAttackedPiece() == n.GetAttackedPiece()
    ensures m.IsCastleMoveClass() ==> n.IsCastleMoveClass() && m.castleRook == n.castleRook
  {
  }

  /** Conversely, moves of one class that agree on those fields are equal, whatever else they hold. */
  lemma AgreeingMovesAreEqual(m: Move, n: Move)
    requires m.MajorMove? || m.PawnMove? || m.PawnJump? || m.PawnPromotion? || m.IsAttackMoveClass() || m.IsCastleMoveClass()
    requires m.GetMovedPiece().Some?
    requires m.IsAttackMoveClass() || m.IsCastleMoveClass() || m.PawnPromotion? ==> m.IsAttackMoveClass() == n.IsAttackMoveClass()
    requires (m.MajorMove? ==> n.MajorMove?) && (m.PawnMove? ==> n.PawnMove?) && (m.PawnJump? ==> n.PawnJump?)
    requires (m.MajorAttackMove? ==> n.MajorAttackMove?) && (m.PawnAttackMove? ==> n.PawnAttackMove?)
    requires (m.PawnEnPassantAttack? ==> n.PawnEnPassantAttack?) && (m.PawnPromotion? ==> n.PawnPromotion?)
    requires (m.KingSideCastleMove? ==> n.KingSideCastleMove?) && (m.QueenSideCastleMove? ==> n.QueenSideCastleMove?)
    requires m.GetMovedPiece() == n.GetMovedPiece()
    requires m.GetDestinationCoordinate() == n.GetDestinationCoordinate()
    requires m.GetCurrentCoordinate() == n.GetCurrentCoordinate()
    requires m.IsAttackMoveClass() ==> m.GetAttackedPiece() == n.GetAttackedPiece()
    requires m.IsCastleMoveClass() ==> m.castleRook == n.castleRook
    ensures m.Equals(n)
  {
  }

  /** The one-sided instanceof tests make equality asymmetric between a pawn capture and an en-passant capture. */
  lemma EqualityIsNotSymmetric(pawn: Piece, destination: int, attacked: Piece)
    ensures PawnAttackMove(pawn, destination, attacked).Equals(PawnEnPassantAttack(pawn, destination, attacked))
    ensures !PawnEnPassantAttack(pawn, destination, attacked).Equals(PawnAttackMove(pawn, destination, attacked))
  {
  }

  /** A pawn push and a pawn jump with the same data are equal in both directions. */
  lemma PawnMoveEqualsPawnJump(pawn: Piece, destination: int)
    ensures PawnMove(pawn, destination).Equals(PawnJump(pawn, destination))
    ensures PawnJump(pawn, destination).Equals(PawnMove(pawn, destination))
  {
  }

  /**
   * X.movePiece(move) for every piece class X: a new piece of the same class, built with the
   * two-argument constructor, owned by the move's piece's alliance and standing on the destination.
   */
  function MovePiece(piece: Piece, move: Move): Piece
    requires move.GetMovedPiece().Some?
  {
    NewPiece(piece.kind, move.GetMovedPiece().value.pieceAlliance, move.GetDestinationCoordinate())
  }

  /** The moved copy keeps the class, stands on the destination, and has its first-move flag set again. */
  lemma MovedPieceIsFresh(piece: Piece, move: Move)
    requires move.GetMovedPiece().Some?
    ensures MovePiece(piece, move).kind == piece.kind
    ensures MovePiece(piece, move).pieceType == piece.kind
    ensures MovePiece(piece, move).pieceAlliance == move.GetMovedPiece().value.pieceAlliance
    ensures MovePiece(piece, move).piecePosition == move.GetDestinationCoordinate()
    ensures MovePiece(piece, move).isFirstMove
  {
  }
}
