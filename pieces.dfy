/**
 * Chess pieces as the engine builds them. The engine's ChessPiece base class and its PieceType
 * enum are not part of this model: a piece is assumed to carry its type tag, position, alliance
 * and first-move flag as the subclass constructors pass them, to compare by those values, and
 * PieceType is assumed to print as the usual one-letter names.
 */
module Pieces {
  import opened Alliances

  datatype PieceType = Pawn | Knight | Bishop | Rook | Queen | King {

    predicate IsKing()
    {
      King?
    }

    /** PieceType.toString(), one upper-case letter. */
    function Letter(): (s: string)
      ensures |s| == 1 && 'A' <= s[0] <= 'Z'
    {
      match this
      case Pawn => "P"
      case Knight => "N"
      case Bishop => "B"
      case Rook => "R"
      case Queen => "Q"
      case King => "K"
    }
  }

  /**
   * A piece. `kind` is the Java class of the object, which decides how it moves, copies and
   * prints itself; `pieceType` is the tag its constructor passed up to ChessPiece, which is what
   * establishKing looks at. The two differ for pieces built by a three-argument constructor.
   */
  datatype Piece = Piece(kind: PieceType, pieceType: PieceType, pieceAlliance: Alliance,
                         piecePosition: int, isFirstMove: bool)

  /** The two-argument constructors `new X(alliance, position)`: tagged with their own type, first move set. */
  function NewPiece(kind: PieceType, alliance: Alliance, position: int): (p: Piece)
    ensures p.kind == kind && p.pieceAlliance == alliance && p.piecePosition == position
    ensures p.pieceType == kind && p.isFirstMove
  {
    Piece(kind, kind, alliance, position, true)
  }

  /** The three-argument constructors `new X(alliance, position, isFirstMove)`: every one of them tags the piece BISHOP. */
  function NewPieceWithFlag(kind: PieceType, alliance: Alliance, position: int, isFirstMove: bool): (p: Piece)
    ensures p.kind == kind && p.pieceAlliance == alliance && p.piecePosition == position
    ensures p.pieceType == Bishop && p.isFirstMove == isFirstMove
  {
    Piece(kind, Bishop, alliance, position, isFirstMove)
  }

  /** A piece is recognised as a king only when it was built by King's two-argument constructor. */
  lemma OnlyTwoArgumentKingsAreKings(kind: PieceType, alliance: Alliance, position: int, isFirstMove: bool)
    ensures NewPiece(kind, alliance, position).pieceType.IsKing() <==> kind == King
    ensures !NewPieceWithFlag(kind, alliance, position, isFirstMove).pieceType.IsKing()
  {
  }

  /** Each subclass's toString: the letter of its own class, whatever its tag. */
  function PieceText(p: Piece): string
  {
    p.kind.Letter()
  }
}
