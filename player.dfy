/**
 * The constructor-time part of Player.java: the king, the legal moves with the castles appended,
 * the check flag, and isMoveLegal. makeMove and the mate tests need a finished board and live in Play.
 */
module Players {
  import opened Wrappers
  import opened Alliances
  import opened Pieces
  import opened Tiles
  import opened Moves

  /**
   * WhitePlayer/BlackPlayer.calculateKingCastles, which are not part of this model, as a parameter:
   * given the side, its king, the tiles, its own and the opponent's moves, the castle moves it offers.
   */
  type CastleRule = (Alliance, Piece, seq<Tile>, seq<Move>, seq<Move>) -> seq<Move>

  datatype Player = Player(alliance: Alliance, playerKing: Piece, legalMoves: seq<Move>,
                           kingCastleMoves: seq<Move>, isInCheck: bool)
  {
    /** isMoveLegal: List.contains, which asks `move.equals(legal)` of each legal move. */
    predicate IsMoveLegal(move: Move)
    {
      exists i :: 0 <= i < |legalMoves| && move.Equals(legalMoves[i])
    }
  }

  /** calculateAttacksOnTile as a value: the moves that land on the square, in order. */
  function AttacksOnTile(piecePosition: int, moves: seq<Move>): (attacks: seq<Move>)
    ensures forall m :: m in attacks <==> m in moves && m.GetDestinationCoordinate() == piecePosition
    ensures |attacks| <= |moves|
  {
    if moves == [] then []
    else
      var last := moves[|moves| - 1];
      var rest := AttacksOnTile(piecePosition, moves[..|moves| - 1]);
      assert moves == moves[..|moves| - 1] + [last];
      if last.GetDestinationCoordinate() == piecePosition then rest + [last] else rest
  }

  /** Player.calculateAttacksOnTile */
  method CalculateAttacksOnTile(piecePosition: int, moves: seq<Move>) returns (attackMoves: seq<Move>)
    ensures attackMoves == AttacksOnTile(piecePosition, moves)
  {
    attackMoves := [];
    var i := 0;
    while i < |moves|
      invariant 0 <= i <= |moves|
      invariant attackMoves == AttacksOnTile(piecePosition, moves[..i])
    {
      var move := moves[i];
      assert moves[..i + 1][..i] == moves[..i];
      if piecePosition == move.GetDestinationCoordinate() {
        attackMoves := attackMoves + [move];
      }
      i := i + 1;
    }
    assert moves[..i] == moves;
  }

  /** The first active piece whose type tag is KING. */
  function FirstKing(activePieces: seq<Piece>): (king: Option<Piece>)
    ensures king.Some? <==> exists i :: 0 <= i < |activePieces| && activePieces[i].pieceType.IsKing()
    ensures king.Some? ==> exists i :: 0 <= i < |activePieces| && activePieces[i] == king.value &&
                                       king.value.pieceType.IsKing() &&
                                       forall j :: 0 <= j < i ==> !activePieces[j].pieceType.IsKing()
  {
    if activePieces == [] then None
    else if activePieces[0].pieceType.IsKing() then Some(activePieces[0])
    else
      var king := FirstKing(activePieces[1..]);
      assert forall i :: 1 <= i < |activePieces| ==> activePieces[i] == activePieces[1..][i - 1];
      king
  }

  /** Player.establishKing: the first king, or the "not a valid Chessboard" exception. */
  method EstablishKing(activePieces: seq<Piece>) returns (king: Result<Piece>)
    ensures king.Success? <==> FirstKing(activePieces).Some?
    ensures king.Success? ==> king.value == FirstKing(activePieces).value
    ensures king.Failure? ==> king.error == InvalidChessboard
  {
    var i := 0;
    while i < |activePieces|
      invariant 0 <= i <= |activePieces|
      invariant FirstKing(activePieces) == FirstKing(activePieces[i..])
    {
      var piece := activePieces[i];
      if piece.pieceType.IsKing() {
        return Success(piece);
      }
      assert activePieces[i..][1..] == activePieces[i + 1..];
      i := i + 1;
    }
    return Failure(InvalidChessboard);
  }

  /**
   * The Player constructor: it fails when the side has no king; otherwise the legal moves are the
   * given moves followed by the castle moves, and the player is in check exactly when some opponent
   * move lands on its king's square.
   */
  function NewPlayer(alliance: Alliance, tiles: seq<Tile>, activePieces: seq<Piece>,
                     legalMoves: seq<Move>, opponentMoves: seq<Move>, rule: CastleRule): (r: Result<Player>)
    ensures r.Failure? <==> FirstKing(activePieces).None?
    ensures r.Failure? ==> r.error == InvalidChessboard
    ensures r.Success? ==>
              && r.value.alliance == alliance
              && r.value.playerKing == FirstKing(activePieces).value
              && r.value.kingCastleMoves == rule(alliance, r.value.playerKing, tiles, legalMoves, opponentMoves)
              && r.value.legalMoves == legalMoves + r.value.kingCastleMoves
              && (r.value.isInCheck <==>
                    exists m :: m in opponentMoves && m.GetDestinationCoordinate() == r.value.playerKing.piecePosition)
  {
    match FirstKing(activePieces)
    case None => Failure(InvalidChessboard)
    case Some(king) =>
      var castles := rule(alliance, king, tiles, legalMoves, opponentMoves);
      var inCheck := AttacksOnTile(king.piecePosition, opponentMoves) != [];
      assert inCheck ==> AttacksOnTile(king.piecePosition, opponentMoves)[0] in AttacksOnTile(king.piecePosition, opponentMoves);
      Success(Player(alliance, king, legalMoves + castles, castles, inCheck))
  }

  /** The Player constructor as the engine runs it: establishKing, calculateKingCastles, the concatenation, calculateAttacksOnTile. */
  method CreatePlayer(alliance: Alliance, tiles: seq<Tile>, activePieces: seq<Piece>,
                      legalMoves: seq<Move>, opponentMoves: seq<Move>, rule: CastleRule) returns (player: Result<Player>)
    ensures player == NewPlayer(alliance, tiles, activePieces, legalMoves, opponentMoves, rule)
  {
    var playerKing := EstablishKing(activePieces);
    if playerKing.Failure? {
      return Failure(playerKing.error);
    }
    var kingCastleMoves := rule(alliance, playerKing.value, tiles, legalMoves, opponentMoves);
    var attacks := CalculateAttacksOnTile(playerKing.value.piecePosition, opponentMoves);
    return Success(Player(alliance, playerKing.value, legalMoves + kingCastleMoves, kingCastleMoves, attacks != []));
  }

  /** A legal move agrees with one of the player's moves on piece, origin and destination. */
  lemma LegalMoveMatchesAListedMove(player: Player, move: Move)
    requires player.IsMoveLegal(move)
    ensures exists i :: 0 <= i < |player.legalMoves| &&
              player.legalMoves[i].GetMovedPiece() == move.GetMovedPiece() &&
              player.legalMoves[i].GetDestinationCoordinate() == move.GetDestinationCoordinate() &&
              player.legalMoves[i].GetCurrentCoordinate() == move.GetCurrentCoordinate()
  {
    var i :| 0 <= i < |player.legalMoves| && move.Equals(player.legalMoves[i]);
    EqualMovesAgree(move, player.legalMoves[i]);
  }

  /** Every listed move is legal, and the null move is legal only when it is itself listed. */
  lemma ListedMovesAreLegal(player: Player, move: Move)
    ensures move in player.legalMoves ==> player.IsMoveLegal(move)
    ensures player.IsMoveLegal(NullMove) <==> NullMove in player.legalMoves
  {
    if move in player.legalMoves {
      var i :| 0 <= i < |player.legalMoves| && player.legalMoves[i] == move;
      assert move.Equals(player.legalMoves[i]);
    }
  }
}
