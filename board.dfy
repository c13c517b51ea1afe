/**
 * ChessBoard.java: the board a Builder builds, its tiles, piece lists, legal moves and players,
 * the standard starting position, and its text form.
 */
module Boards {
  import opened Wrappers
  import opened Seqs
  import opened Squares
  import opened Alliances
  import opened Pieces
  import opened Tiles
  import opened Moves
  import opened BoardViews
  import opened Players
  import Pawns
  import Knights
  import Bishops
  import Rooks
  import Queens
  import Kings

  /** The builder's map is keyed by each piece's own square, which setPiece keeps true. */
  predicate Keyed(boardConfig: map<int, Piece>)
  {
    forall k :: k in boardConfig ==> boardConfig[k].piecePosition == k
  }

  /** Map.get: the piece mapped to the square, or Java's null. */
  function Lookup(boardConfig: map<int, Piece>, coordinate: int): Option<Piece>
  {
    if coordinate in boardConfig then Some(boardConfig[coordinate]) else None
  }

  /** createGameBoard as a value: tile i holds the piece the builder mapped to i, or is empty. */
  function GameBoard(boardConfig: map<int, Piece>): (gameBoard: seq<Tile>)
    ensures |gameBoard| == NumTiles
    ensures forall i :: 0 <= i < NumTiles ==> gameBoard[i].tileCoordinate == i
    ensures forall i :: 0 <= i < NumTiles ==> (gameBoard[i].IsTileOccupied() <==> i in boardConfig)
    ensures forall i :: 0 <= i < NumTiles && i in boardConfig ==> gameBoard[i] == OccupiedTile(i, boardConfig[i])
  {
    seq(NumTiles, i requires 0 <= i < NumTiles => CreateTile(i, Lookup(boardConfig, i)).value)
  }

  /** ChessBoard.createGameBoard */
  method CreateGameBoard(boardConfig: map<int, Piece>) returns (gameBoard: seq<Tile>)
    ensures gameBoard == GameBoard(boardConfig)
  {
    var tiles := new Tile[NumTiles];
    for i := 0 to NumTiles
      invariant forall j :: 0 <= j < i ==> tiles[j] == GameBoard(boardConfig)[j]
    {
      tiles[i] := CreateTile(i, Lookup(boardConfig, i)).value;
    }
    gameBoard := tiles[..];
  }

  /** calculateActivePieces as a value: the pieces of one side on occupied tiles, in tile order. */
  function ActivePieces(gameBoard: seq<Tile>, alliance: Alliance): (pieces: seq<Piece>)
    ensures |pieces| <= |gameBoard|
  {
    if gameBoard == [] then []
    else
      var last := gameBoard[|gameBoard| - 1];
      var rest := ActivePieces(gameBoard[..|gameBoard| - 1], alliance);
      assert forall i :: 0 <= i < |gameBoard| - 1 ==> gameBoard[..|gameBoard| - 1][i] == gameBoard[i];
      if last.IsTileOccupied() && last.pieceOnTile.pieceAlliance == alliance then rest + [last.pieceOnTile] else rest
  }

  /** ChessBoard.calculateActivePieces */
  method CalculateActivePieces(gameBoard: seq<Tile>, alliance: Alliance) returns (activePieces: seq<Piece>)
    ensures activePieces == ActivePieces(gameBoard, alliance)
  {
    activePieces := [];
    for i := 0 to |gameBoard|
      invariant activePieces == ActivePieces(gameBoard[..i], alliance)
    {
      var tile := gameBoard[i];
      assert gameBoard[..i + 1][..i] == gameBoard[..i];
      if tile.IsTileOccupied() {
        var piece := tile.pieceOnTile;
        if piece.pieceAlliance == alliance {
          activePieces := activePieces + [piece];
        }
      }
    }
    assert gameBoard[..|gameBoard|] == gameBoard;
  }

  /** piece.calculateLegalMoves(board), dispatched on the piece's class. */
  function PieceMoves(view: BoardView, piece: Piece): seq<Move>
    requires view.Valid()
  {
    match piece.kind
    case Pawn => Pawns.LegalMoves(view, piece)
    case Knight => Knights.LegalMoves(view, piece)
    case Bishop => Bishops.LegalMoves(view, piece)
    case Rook => Rooks.LegalMoves(view, piece)
    case Queen => Queens.LegalMoves(view, piece)
    case King => Kings.LegalMoves(view, piece)
  }

  method CalculatePieceMoves(view: BoardView, piece: Piece) returns (moves: seq<Move>)
    requires view.Valid()
    ensures moves == PieceMoves(view, piece)
  {
    match piece.kind
    case Pawn => moves := Pawns.CalculateLegalMoves(view, piece);
    case Knight => moves := Knights.CalculateLegalMoves(view, piece);
    case Bishop => moves := Bishops.CalculateLegalMoves(view, piece);
    case Rook => moves := Rooks.CalculateLegalMoves(view, piece);
    case Queen => moves := Queens.CalculateLegalMoves(view, piece);
    case King => moves := Kings.CalculateLegalMoves(view, piece);
  }

  function PieceMoveLists(view: BoardView, pieces: seq<Piece>): seq<seq<Move>>
    requires view.Valid()
  {
    seq(|pieces|, i requires 0 <= i < |pieces| => PieceMoves(view, pieces[i]))
  }

  /** calculateLegalMoves as a value: every piece's moves, piece by piece. */
  function AllPieceMoves(view: BoardView, pieces: seq<Piece>): seq<Move>
    requires view.Valid()
  {
    Flatten(PieceMoveLists(view, pieces))
  }

  /** ChessBoard.calculateLegalMoves */
  method CalculateLegalMoves(view: BoardView, pieces: seq<Piece>) returns (legalMoves: seq<Move>)
    requires view.Valid()
    ensures legalMoves == AllPieceMoves(view, pieces)
  {
    ghost var lists := PieceMoveLists(view, pieces);
    legalMoves := [];
    for i := 0 to |pieces|
      invariant legalMoves == Flatten(lists[..i])
    {
      var moves := CalculatePieceMoves(view, pieces[i]);
      FlattenPrefix(lists, i);
      legalMoves := legalMoves + moves;
    }
    assert lists[..|pieces|] == lists;
  }

  /** The moved piece of a move generated for `piece`, and where it starts. */
  predicate MovesPiece(m: Move, piece: Piece)
  {
    m.GetMovedPiece() == Some(piece) && m.GetCurrentCoordinate() == piece.piecePosition
  }

  /** Every move a piece on the board generates moves that piece to a square on the board (castles aside). */
  lemma PieceMovesStayOnBoard(view: BoardView, piece: Piece)
    requires view.Valid() && IsValidTileCoordinate(piece.piecePosition)
    ensures forall m :: m in PieceMoves(view, piece) && !(piece.kind == King && m in Kings.CastleMoves(view)) ==>
              MovesPiece(m, piece) && IsValidTileCoordinate(m.GetDestinationCoordinate())
  {
    match piece.kind
    case Pawn =>
      Pawns.LegalMovesSound(view, piece);
      forall m | m in Pawns.LegalMoves(view, piece) ensures MovesPiece(m, piece) {
        if m.PawnPromotion? {
          assert m.GetMovedPiece() == m.decoratedMove.GetMovedPiece();
        }
      }
    case Knight => Knights.LegalMovesAreJumps(view, piece);
    case Bishop => Bishops.LegalMovesAreDiagonal(view, piece);
    case Rook => Rooks.LegalMovesAreOrthogonal(view, piece);
    case Queen => Queens.LegalMovesAreLines(view, piece);
    case King => Kings.StepMovesAreAdjacent(view, piece);
  }

  /**
   * While the board is being built (no current player, so no castles), every collected move moves
   * one of the given pieces from its square to a square on the board.
   */
  lemma {:induction false} AllPieceMovesStayOnBoard(view: BoardView, pieces: seq<Piece>)
    requires view.Valid() && view.currentPlayerCastles.None?
    requires forall i :: 0 <= i < |pieces| ==> IsValidTileCoordinate(pieces[i].piecePosition)
    ensures forall m :: m in AllPieceMoves(view, pieces) ==>
              IsValidTileCoordinate(m.GetDestinationCoordinate()) &&
              exists i :: 0 <= i < |pieces| && MovesPiece(m, pieces[i])
  {
    var lists := PieceMoveLists(view, pieces);
    forall m | m in AllPieceMoves(view, pieces)
      ensures IsValidTileCoordinate(m.GetDestinationCoordinate())
      ensures exists i :: 0 <= i < |pieces| && MovesPiece(m, pieces[i])
    {
      FlattenMember(lists, m);
      var i :| 0 <= i < |lists| && m in lists[i];
      PieceMovesStayOnBoard(view, pieces[i]);
    }
  }

  datatype Board = Board(gameBoard: seq<Tile>, whitePieces: seq<Piece>, blackPieces: seq<Piece>,
                         enPassantPawn: Option<Piece>, whitePlayer: Player, blackPlayer: Player,
                         nextMoveMaker: Alliance)
  {
    /** currentPlayer: the builder's move maker chooses between the two players. */
    function CurrentPlayer(): (p: Player)
      ensures Valid() ==> p.alliance == nextMoveMaker
      ensures p == whitePlayer <==> nextMoveMaker == White || whitePlayer == blackPlayer
    {
      nextMoveMaker.ChoosePlayer(whitePlayer, blackPlayer)
    }

    /** The player of one side (WhitePlayer/BlackPlayer.getOpponent picks the other one). */
    function PlayerOf(alliance: Alliance): Player
    {
      alliance.ChoosePlayer(whitePlayer, blackPlayer)
    }

    /** getActivePieces of a side's player: that side's board list. */
    function ActivePiecesOf(alliance: Alliance): seq<Piece>
    {
      alliance.ChoosePlayer(whitePieces, blackPieces)
    }

    /** getAllLegalMoves: the white legal moves followed by the black ones. */
    function GetAllLegalMoves(): (moves: seq<Move>)
      ensures |moves| == |whitePlayer.legalMoves| + |blackPlayer.legalMoves|
      ensures moves[..|whitePlayer.legalMoves|] == whitePlayer.legalMoves
      ensures moves[|whitePlayer.legalMoves|..] == blackPlayer.legalMoves
      ensures forall m :: m in moves <==> m in whitePlayer.legalMoves || m in blackPlayer.legalMoves
    {
      whitePlayer.legalMoves + blackPlayer.legalMoves
    }

    /** The shape every built board has. */
    predicate Valid()
    {
      && |gameBoard| == NumTiles
      && (forall i :: 0 <= i < NumTiles ==> gameBoard[i].tileCoordinate == i)
      && (forall i :: 0 <= i < NumTiles && gameBoard[i].IsTileOccupied() ==> gameBoard[i].pieceOnTile.piecePosition == i)
      && whitePieces == ActivePieces(gameBoard, White)
      && blackPieces == ActivePieces(gameBoard, Black)
      && whitePlayer.alliance == White && blackPlayer.alliance == Black
    }
  }

  /** A piece is in the list of a side exactly when some tile holds it and it belongs to that side. */
  lemma {:induction false} ActivePiecesMembers(gameBoard: seq<Tile>, alliance: Alliance)
    ensures forall p :: p in ActivePieces(gameBoard, alliance) <==>
              exists i :: 0 <= i < |gameBoard| && gameBoard[i].IsTileOccupied() &&
                          gameBoard[i].pieceOnTile == p && p.pieceAlliance == alliance
  {
    if gameBoard != [] {
      var n := |gameBoard|;
      var prefix := gameBoard[..n - 1];
      ActivePiecesMembers(prefix, alliance);
      assert forall i :: 0 <= i < n - 1 ==> prefix[i] == gameBoard[i];
    }
  }

  /** Some tile holds a piece of the side whose type tag is KING. */
  predicate HasKing(gameBoard: seq<Tile>, alliance: Alliance)
  {
    exists i :: 0 <= i < |gameBoard| && gameBoard[i].IsTileOccupied() &&
                gameBoard[i].pieceOnTile.pieceAlliance == alliance && gameBoard[i].pieceOnTile.pieceType.IsKing()
  }

  lemma KingFound(gameBoard: seq<Tile>, alliance: Alliance)
    ensures FirstKing(ActivePieces(gameBoard, alliance)).Some? <==> HasKing(gameBoard, alliance)
  {
    var pieces := ActivePieces(gameBoard, alliance);
    ActivePiecesMembers(gameBoard, alliance);
    if HasKing(gameBoard, alliance) {
      var i :| 0 <= i < |gameBoard| && gameBoard[i].IsTileOccupied() &&
               gameBoard[i].pieceOnTile.pieceAlliance == alliance && gameBoard[i].pieceOnTile.pieceType.IsKing();
      assert gameBoard[i].pieceOnTile in pieces;
    }
    if FirstKing(pieces).Some? {
      assert FirstKing(pieces).value in pieces;
    }
  }

  /**
   * The ChessBoard constructor run by Builder.build. It fails as Java does: without a white king
   * (WhitePlayer's establishKing throws), then without a black king, then without a move maker
   * (choosePlayer on null). The pieces see no current player while their moves are collected.
   */
  function BuildBoard(boardConfig: map<int, Piece>, nextMoveMaker: Option<Alliance>, enPassantPawn: Option<Piece>,
                      rule: CastleRule): (r: Result<Board>)
    requires Keyed(boardConfig)
    ensures !HasKing(GameBoard(boardConfig), White) ==> r == Failure(InvalidChessboard)
    ensures HasKing(GameBoard(boardConfig), White) && !HasKing(GameBoard(boardConfig), Black) ==> r == Failure(InvalidChessboard)
    ensures HasKing(GameBoard(boardConfig), White) && HasKing(GameBoard(boardConfig), Black) && nextMoveMaker.None? ==>
              r == Failure(MissingMoveMaker)
    ensures r.Success? <==> HasKing(GameBoard(boardConfig), White) && HasKing(GameBoard(boardConfig), Black) && nextMoveMaker.Some?
    ensures r.Success? ==> r.value.Valid()
    ensures r.Success? ==> r.value.gameBoard == GameBoard(boardConfig)
    ensures r.Success? ==> r.value.enPassantPawn == enPassantPawn
    ensures r.Success? ==> Some(r.value.nextMoveMaker) == nextMoveMaker
  {
    var gameBoard := GameBoard(boardConfig);
    var whitePieces := ActivePieces(gameBoard, White);
    var blackPieces := ActivePieces(gameBoard, Black);
    var view := BoardView(gameBoard, enPassantPawn, None);
    var whiteStandardLegalMoves := AllPieceMoves(view, whitePieces);
    var blackStandardLegalMoves := AllPieceMoves(view, blackPieces);
    var whitePlayer := NewPlayer(White, gameBoard, whitePieces, whiteStandardLegalMoves, blackStandardLegalMoves, rule);
    var blackPlayer := NewPlayer(Black, gameBoard, blackPieces, blackStandardLegalMoves, whiteStandardLegalMoves, rule);
    KingFound(gameBoard, White);
    KingFound(gameBoard, Black);
    if whitePlayer.Failure? then Failure(whitePlayer.error)
    else if blackPlayer.Failure? then Failure(blackPlayer.error)
    else if nextMoveMaker.None? then Failure(MissingMoveMaker)
    else Success(Board(gameBoard, whitePieces, blackPieces, enPassantPawn, whitePlayer.value, blackPlayer.value, nextMoveMaker.value))
  }

  /** The players of a built board are the Player constructor's results on the moves the pieces generate. */
  lemma BuiltPlayers(boardConfig: map<int, Piece>, nextMoveMaker: Option<Alliance>, enPassantPawn: Option<Piece>, rule: CastleRule)
    requires Keyed(boardConfig) && BuildBoard(boardConfig, nextMoveMaker, enPassantPawn, rule).Success?
    ensures var b := BuildBoard(boardConfig, nextMoveMaker, enPassantPawn, rule).value;
            var view := BoardView(b.gameBoard, enPassantPawn, None);
            && Success(b.whitePlayer) == NewPlayer(White, b.gameBoard, b.whitePieces, AllPieceMoves(view, b.whitePieces), AllPieceMoves(view, b.blackPieces), rule)
            && Success(b.blackPlayer) == NewPlayer(Black, b.gameBoard, b.blackPieces, AllPieceMoves(view, b.blackPieces), AllPieceMoves(view, b.whitePieces), rule)
  {
  }

  /** ChessBoard.Builder: a mutable square-to-piece map, the next move maker and the en-passant pawn. */
  class Builder {
    var boardConfig: map<int, Piece>
    var nextMoveMaker: Option<Alliance>
    var enPassantPawn: Option<Piece>

    predicate Valid()
      reads this
    {
      Keyed(boardConfig)
    }

    constructor()
      ensures Valid()
      ensures boardConfig == map[] && nextMoveMaker == None && enPassantPawn == None
    {
      boardConfig := map[];
      nextMoveMaker := None;
      enPassantPawn := None;
    }

    /** setPiece: the piece goes to its own square, replacing whatever was mapped there; nothing else changes. */
    method SetPiece(piece: Piece)
      requires Valid()
      modifies this
      ensures Valid()
      ensures boardConfig == old(boardConfig)[piece.piecePosition := piece]
      ensures nextMoveMaker == old(nextMoveMaker) && enPassantPawn == old(enPassantPawn)
    {
      boardConfig := boardConfig[piece.piecePosition := piece];
    }

    method SetMoveMaker(alliance: Alliance)
      requires Valid()
      modifies this
      ensures Valid()
      ensures nextMoveMaker == Some(alliance)
      ensures boardConfig == old(boardConfig) && enPassantPawn == old(enPassantPawn)
    {
      nextMoveMaker := Some(alliance);
    }

    method SetEnPassantPawn(pawn: Option<Piece>)
      requires Valid()
      modifies this
      ensures Valid()
      ensures enPassantPawn == pawn
      ensures boardConfig == old(boardConfig) && nextMoveMaker == old(nextMoveMaker)
    {
      enPassantPawn := pawn;
    }

    /** build: the ChessBoard constructor on this builder. */
    method Build(rule: CastleRule) returns (board: Result<Board>)
      requires Valid()
      ensures board == BuildBoard(boardConfig, nextMoveMaker, enPassantPawn, rule)
    {
      var gameBoard := CreateGameBoard(boardConfig);
      var whitePieces := CalculateActivePieces(gameBoard, White);
      var blackPieces := CalculateActivePieces(gameBoard, Black);
      var view := BoardView(gameBoard, enPassantPawn, None);
      var whiteStandardLegalMoves := CalculateLegalMoves(view, whitePieces);
      var blackStandardLegalMoves := CalculateLegalMoves(view, blackPieces);
      var whitePlayer := CreatePlayer(White, gameBoard, whitePieces, whiteStandardLegalMoves, blackStandardLegalMoves, rule);
      if whitePlayer.Failure? {
        return Failure(whitePlayer.error);
      }
      var blackPlayer := CreatePlayer(Black, gameBoard, blackPieces, blackStandardLegalMoves, whiteStandardLegalMoves, rule);
      if blackPlayer.Failure? {
        return Failure(blackPlayer.error);
      }
      if nextMoveMaker.None? {
        return Failure(MissingMoveMaker);
      }
      board := Success(Board(gameBoard, whitePieces, blackPieces, enPassantPawn, whitePlayer.value, blackPlayer.value, nextMoveMaker.value));
    }
  }

  /** The back rank, from the a-file to the h-file. */
  const BackRank: seq<PieceType> := [Rook, Knight, Bishop, Queen, King, Bishop, Knight, Rook]

  /** The class of the piece the standard board puts on a square of the two back ranks or pawn ranks. */
  function StandardPieceKind(coordinate: int): PieceType
    requires 0 <= coordinate < NumTiles
  {
    if 8 <= coordinate < 56 then Pawn
    else if coordinate < 8 then BackRank[coordinate]
    else BackRank[coordinate - 56]
  }

  /** createStandardBoard's map: black on squares 0-15, white on 48-63, each piece new on its square. */
  function StandardConfig(): (boardConfig: map<int, Piece>)
    ensures Keyed(boardConfig)
    ensures forall i :: i in boardConfig <==> 0 <= i < 16 || 48 <= i < NumTiles
    ensures forall i :: i in boardConfig ==> boardConfig[i] == StandardPiece(i)
  {
    map i | 0 <= i < NumTiles && (i < 16 || 48 <= i) :: StandardPiece(i)
  }

  /** The piece createStandardBoard sets on a square of the four occupied ranks: black above square 16, white below. */
  function StandardPiece(coordinate: int): (piece: Piece)
    requires 0 <= coordinate < NumTiles
    ensures piece.piecePosition == coordinate
  {
    NewPiece(StandardPieceKind(coordinate), if coordinate < 16 then Black else White, coordinate)
  }

  /** The standard pieces of the eight squares from `first` on. */
  function StandardRank(first: int): (rank: map<int, Piece>)
    requires first in {0, 8, 48, 56}
    ensures forall i :: i in rank <==> first <= i < first + 8
    ensures forall i :: i in rank ==> rank[i] == StandardPiece(i)
  {
    map i | first <= i < first + 8 :: StandardPiece(i)
  }

  /** The map after `k` setPiece calls that copy the pieces of `src` on squares `first`, `first + 1`, ... in turn. */
  function PlacedRun(m: map<int, Piece>, src: map<int, Piece>, first: int, k: nat): map<int, Piece>
    requires forall i :: first <= i < first + k ==> i in src
  {
    if k == 0 then m else PlacedRun(m, src, first, k - 1)[first + k - 1 := src[first + k - 1]]
  }

  /** Those `k` setPiece calls add the part of `src` on the `k` squares to the map. */
  lemma {:induction false} PlacedRunMerges(m: map<int, Piece>, src: map<int, Piece>, first: int, k: nat)
    requires forall i :: first <= i < first + k ==> i in src
    ensures PlacedRun(m, src, first, k) == m + map i | first <= i < first + k :: src[i]
  {
    if k > 0 {
      PlacedRunMerges(m, src, first, k - 1);
      var last := first + k - 1;
      RangeSnoc(src, first, k);
      MergeUpdate(m, map i | first <= i < first + k - 1 :: src[i], last, src[last]);
    }
  }

  /** One more square of `src` extends the copied range by one update. */
  lemma RangeSnoc(src: map<int, Piece>, first: int, k: nat)
    requires 0 < k && forall i :: first <= i < first + k ==> i in src
    ensures (map i | first <= i < first + k :: src[i]) ==
            (map i | first <= i < first + k - 1 :: src[i])[first + k - 1 := src[first + k - 1]]
  {
  }

  /** Updating the right operand of a map union updates the union. */
  lemma MergeUpdate(m: map<int, Piece>, a: map<int, Piece>, x: int, v: Piece)
    ensures m + a[x := v] == (m + a)[x := v]
  {
  }

  /** Eight setPiece calls copying `src` square by square add its part on those squares to the map. */
  lemma EightPlaced(m: map<int, Piece>, src: map<int, Piece>, first: int)
    requires forall i :: first <= i < first + 8 ==> i in src
    ensures m[first := src[first]][first + 1 := src[first + 1]][first + 2 := src[first + 2]][first + 3 := src[first + 3]][first + 4 := src[first + 4]][first + 5 := src[first + 5]][first + 6 := src[first + 6]][first + 7 := src[first + 7]] == m + map i | first <= i < first + 8 :: src[i]
  {
    PlacedRunMerges(m, src, first, 8);
  }

  /** Eight setPiece calls, square by square, put a whole rank into the map. */
  lemma RankPlaced(m: map<int, Piece>, first: int)
    requires first in {0, 8, 48, 56}
    ensures m[first := StandardPiece(first)][first + 1 := StandardPiece(first + 1)][first + 2 := StandardPiece(first + 2)]
             [first + 3 := StandardPiece(first + 3)][first + 4 := StandardPiece(first + 4)][first + 5 := StandardPiece(first + 5)]
             [first + 6 := StandardPiece(first + 6)][first + 7 := StandardPiece(first + 7)] == m + StandardRank(first)
  {
    var rank := StandardRank(first);
    EightPlaced(m, rank, first);
    assert (map i | first <= i < first + 8 :: rank[i]) == rank;
    assert rank[first + 0] == StandardPiece(first + 0);
    assert rank[first + 1] == StandardPiece(first + 1);
    assert rank[first + 2] == StandardPiece(first + 2);
    assert rank[first + 3] == StandardPiece(first + 3);
    assert rank[first + 4] == StandardPiece(first + 4);
    assert rank[first + 5] == StandardPiece(first + 5);
    assert rank[first + 6] == StandardPiece(first + 6);
    assert rank[first + 7] == StandardPiece(first + 7);
  }

  /** The eight setPiece calls of one rank of createStandardBoard (squares 0-7). */
  method SetBlackBackRank(builder: Builder)
    requires builder.Valid()
    modifies builder
    ensures builder.Valid()
    ensures builder.boardConfig == old(builder.boardConfig) + StandardRank(0)
    ensures builder.nextMoveMaker == old(builder.nextMoveMaker) && builder.enPassantPawn == old(builder.enPassantPawn)
  {
    ghost var before := builder.boardConfig;
    builder.SetPiece(NewPiece(Rook, Black, 0));
    builder.SetPiece(NewPiece(Knight, Black, 1));
    builder.SetPiece(NewPiece(Bishop, Black, 2));
    builder.SetPiece(NewPiece(Queen, Black, 3));
    builder.SetPiece(NewPiece(King, Black, 4));
    builder.SetPiece(NewPiece(Bishop, Black, 5));
    builder.SetPiece(NewPiece(Knight, Black, 6));
    builder.SetPiece(NewPiece(Rook, Black, 7));
    RankPlaced(before, 0);
  }

  /** The eight setPiece calls of one rank of createStandardBoard (squares 8-15). */
  method SetBlackPawnRank(builder: Builder)
    requires builder.Valid()
    modifies builder
    ensures builder.Valid()
    ensures builder.boardConfig == old(builder.boardConfig) + StandardRank(8)
    ensures builder.nextMoveMaker == old(builder.nextMoveMaker) && builder.enPassantPawn == old(builder.enPassantPawn)
  {
    ghost var before := builder.boardConfig;
    builder.SetPiece(NewPiece(Pawn, Black, 8));
    builder.SetPiece(NewPiece(Pawn, Black, 9));
    builder.SetPiece(NewPiece(Pawn, Black, 10));
    builder.SetPiece(NewPiece(Pawn, Black, 11));
    builder.SetPiece(NewPiece(Pawn, Black, 12));
    builder.SetPiece(NewPiece(Pawn, Black, 13));
    builder.SetPiece(NewPiece(Pawn, Black, 14));
    builder.SetPiece(NewPiece(Pawn, Black, 15));
    RankPlaced(before, 8);
  }

  /** The eight setPiece calls of one rank of createStandardBoard (squares 48-55). */
  method SetWhitePawnRank(builder: Builder)
    requires builder.Valid()
    modifies builder
    ensures builder.Valid()
    ensures builder.boardConfig == old(builder.boardConfig) + StandardRank(48)
    ensures builder.nextMoveMaker == old(builder.nextMoveMaker) && builder.enPassantPawn == old(builder.enPassantPawn)
  {
    ghost var before := builder.boardConfig;
    builder.SetPiece(NewPiece(Pawn, White, 48));
    builder.SetPiece(NewPiece(Pawn, White, 49));
    builder.SetPiece(NewPiece(Pawn, White, 50));
    builder.SetPiece(NewPiece(Pawn, White, 51));
    builder.SetPiece(NewPiece(Pawn, White, 52));
    builder.SetPiece(NewPiece(Pawn, White, 53));
    builder.SetPiece(NewPiece(Pawn, White, 54));
    builder.SetPiece(NewPiece(Pawn, White, 55));
    RankPlaced(before, 48);
  }

  /** The eight setPiece calls of one rank of createStandardBoard (squares 56-63). */
  method SetWhiteBackRank(builder: Builder)
    requires builder.Valid()
    modifies builder
    ensures builder.Valid()
    ensures builder.boardConfig == old(builder.boardConfig) + StandardRank(56)
    ensures builder.nextMoveMaker == old(builder.nextMoveMaker) && builder.enPassantPawn == old(builder.enPassantPawn)
  {
    ghost var before := builder.boardConfig;
    builder.SetPiece(NewPiece(Rook, White, 56));
    builder.SetPiece(NewPiece(Knight, White, 57));
    builder.SetPiece(NewPiece(Bishop, White, 58));
    builder.SetPiece(NewPiece(Queen, White, 59));
    builder.SetPiece(NewPiece(King, White, 60));
    builder.SetPiece(NewPiece(Bishop, White, 61));
    builder.SetPiece(NewPiece(Knight, White, 62));
    builder.SetPiece(NewPiece(Rook, White, 63));
    RankPlaced(before, 56);
  }

  /** The four ranks together are the standard map. */
  lemma StandardConfigByRanks()
    ensures map[] + StandardRank(0) + StandardRank(8) + StandardRank(48) + StandardRank(56) == StandardConfig()
  {
    var ranks := map[] + StandardRank(0) + StandardRank(8) + StandardRank(48) + StandardRank(56);
    assert ranks.Keys == StandardConfig().Keys;
  }

  /** ChessBoard.createStandardBoard: 32 pieces set on a fresh builder, white to move. */
  method CreateStandardBoard(rule: CastleRule) returns (board: Result<Board>)
    ensures board == BuildBoard(StandardConfig(), Some(White), None, rule)
  {
    var builder := new Builder();
    SetBlackBackRank(builder);
    SetBlackPawnRank(builder);
    SetWhitePawnRank(builder);
    SetWhiteBackRank(builder);
    builder.SetMoveMaker(White);
    StandardConfigByRanks();
    board := builder.Build(rule);
  }

  /** String.format("%3s", text): left-padded with spaces to width three. */
  function PadLeft3(text: string): (padded: string)
    ensures |padded| == if |text| < 3 then 3 else |text|
    ensures padded[|padded| - |text|..] == text
    ensures forall k :: 0 <= k < |padded| - |text| ==> padded[k] == ' '
  {
    if |text| >= 3 then text else seq(3 - |text|, _ => ' ') + text
  }

  /** How n / 8 moves from n - 1 to n. */
  lemma RowCount(n: int)
    requires n > 0
    ensures n % 8 == 0 ==> (n - 1) / 8 + 1 == n / 8 && n == 8 * (n / 8)
    ensures n % 8 != 0 ==> (n - 1) / 8 == n / 8
    ensures 8 * ((n - 1) / 8) <= n - 1
  {
  }

  /** toString as a value: each tile's text right-aligned in three columns, a newline after every eighth tile. */
  function BoardText(tiles: seq<Tile>): (text: string)
    ensures |text| == 3 * |tiles| + |tiles| / 8
  {
    if tiles == [] then ""
    else
      var n := |tiles|;
      RowCount(n);
      BoardText(tiles[..n - 1]) + PadLeft3(tiles[n - 1].ToText()) + (if n % 8 == 0 then "\n" else "")
  }

  /** Where the text of tile i starts. */
  function CellStart(i: int): int
  {
    3 * i + i / 8
  }

  /** Tile i's letter sits right-aligned in its three columns, and row r ends with a newline. */
  lemma BoardTextLayout(tiles: seq<Tile>)
    ensures forall i :: 0 <= i < |tiles| ==>
              var text := BoardText(tiles);
              text[CellStart(i)] == ' ' && text[CellStart(i) + 1] == ' ' && text[CellStart(i) + 2] == tiles[i].ToText()[0]
    ensures forall r :: 0 < r <= |tiles| / 8 ==> BoardText(tiles)[25 * r - 1] == '\n'
  {
    CellLayout(tiles);
    RowEnds(tiles);
  }

  /** Tile i's letter sits right-aligned in its three columns. */
  lemma {:induction false} CellLayout(tiles: seq<Tile>)
    ensures forall i :: 0 <= i < |tiles| ==>
              var text := BoardText(tiles);
              text[CellStart(i)] == ' ' && text[CellStart(i) + 1] == ' ' && text[CellStart(i) + 2] == tiles[i].ToText()[0]
  {
    if tiles != [] {
      var n := |tiles|;
      var prefix := tiles[..n - 1];
      var rest := BoardText(prefix);
      var text := BoardText(tiles);
      CellLayout(prefix);
      RowCount(n);
      var cell := PadLeft3(tiles[n - 1].ToText());
      assert text == rest + cell + (if n % 8 == 0 then "\n" else "");
      assert |rest| == CellStart(n - 1);
      assert |cell| == 3 && cell[2] == tiles[n - 1].ToText()[0];
      forall i | 0 <= i < n
        ensures text[CellStart(i)] == ' ' && text[CellStart(i) + 1] == ' ' && text[CellStart(i) + 2] == tiles[i].ToText()[0]
      {
        if i < n - 1 {
          CellBefore(i, n - 1);
          assert prefix[i] == tiles[i];
          assert text[CellStart(i)] == rest[CellStart(i)];
          assert text[CellStart(i) + 1] == rest[CellStart(i) + 1];
          assert text[CellStart(i) + 2] == rest[CellStart(i) + 2];
        } else {
          assert text[CellStart(i)] == cell[0];
          assert text[CellStart(i) + 1] == cell[1];
          assert text[CellStart(i) + 2] == cell[2];
        }
      }
    }
  }

  /** Row r of the text ends with a newline. */
  lemma {:induction false} RowEnds(tiles: seq<Tile>)
    ensures forall r :: 0 < r <= |tiles| / 8 ==> BoardText(tiles)[25 * r - 1] == '\n'
  {
    if tiles != [] {
      var n := |tiles|;
      var prefix := tiles[..n - 1];
      var rest := BoardText(prefix);
      var text := BoardText(tiles);
      RowEnds(prefix);
      RowCount(n);
      var cell := PadLeft3(tiles[n - 1].ToText());
      assert text == rest + cell + (if n % 8 == 0 then "\n" else "");
      assert |rest| == CellStart(n - 1) && |cell| == 3;
      forall r | 0 < r <= n / 8 ensures text[25 * r - 1] == '\n' {
        if r <= (n - 1) / 8 {
          RowBefore(r, n - 1);
          assert text[25 * r - 1] == rest[25 * r - 1];
        } else {
          assert 25 * r - 1 == |rest| + 3;
        }
      }
    }
  }

  /** An earlier tile's cell ends before a later tile's starts. */
  lemma CellBefore(i: int, j: int)
    requires 0 <= i < j
    ensures CellStart(i) + 3 <= CellStart(j)
  {
  }

  /** Every complete row before tile j ends before tile j's cell. */
  lemma RowBefore(r: int, j: int)
    requires 0 < r <= j / 8
    ensures 25 * r - 1 < CellStart(j)
  {
  }

  /** The text of one more tile: its cell, then a newline when it ends a row. */
  lemma BoardTextSnoc(tiles: seq<Tile>, i: int)
    requires 0 <= i < |tiles|
    ensures BoardText(tiles[..i + 1]) == BoardText(tiles[..i]) + PadLeft3(tiles[i].ToText()) + (if (i + 1) % 8 == 0 then "\n" else "")
  {
    assert tiles[..i + 1][..i] == tiles[..i];
  }

  /** ChessBoard.toString */
  method ToString(board: Board) returns (text: string)
    requires board.Valid()
    ensures text == BoardText(board.gameBoard)
    ensures |text| == 200
  {
    var tiles := board.gameBoard;
    text := "";
    for i := 0 to NumTiles
      invariant text == BoardText(tiles[..i])
    {
      var tileText := tiles[i].ToText();
      BoardTextSnoc(tiles, i);
      text := text + PadLeft3(tileText);
      if (i + 1) % NumTilesPerRow == 0 {
        text := text + "\n";
      }
    }
    assert tiles[..NumTiles] == tiles;
  }
}
