/** The two sides (Alliance.java). */
module Alliances {
  import opened Squares

  datatype Alliance = White | Black {

    /** The row step of this side's pawns: White moves up the board (towards 0), Black down. */
    function Direction(): (d: int)
      ensures d == -1 || d == 1
      ensures d == -1 <==> IsWhite()
    {
      if White? then -1 else 1
    }

    predicate IsWhite()
    {
      White?
    }

    predicate IsBlack()
    {
      Black?
    }

    /** White promotes on the eighth rank, Black on the first rank. */
    predicate IsPawnPromotionSquare(position: int)
    {
      if White? then IsEighthRank(position) else IsFirstRank(position)
    }

    /** The player object that belongs to this side. */
    function ChoosePlayer<P>(whitePlayer: P, blackPlayer: P): (p: P)
      ensures IsWhite() ==> p == whitePlayer
      ensures IsBlack() ==> p == blackPlayer
    {
      if White? then whitePlayer else blackPlayer
    }

    /** The other side; what Player.getOpponent().getAlliance() yields in the engine. */
    function Opponent(): (a: Alliance)
      ensures a != this
    {
      if White? then Black else White
    }
  }

  /** Exactly one of isWhite and isBlack holds. */
  lemma ExactlyOneSide(a: Alliance)
    ensures a.IsWhite() != a.IsBlack()
  {
  }

  /**
   * The promotion squares of a side are exactly the squares of the last row in its pawns'
   * direction: those from which one more straight step would leave the board.
   */
  lemma PromotionSquaresAreLastRow(a: Alliance, position: int)
    requires IsValidTileCoordinate(position)
    ensures a.IsPawnPromotionSquare(position) <==> !IsValidTileCoordinate(position + 8 * a.Direction())
    ensures a.IsPawnPromotionSquare(position) <==> Row(position) == (if a.IsWhite() then 0 else 7)
  {
  }
}
