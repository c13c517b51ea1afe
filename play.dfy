/**
 * Player.makeMove, hasEscapeMoves, isInCheckMate and isInStaleMate (Player.java), and the MoveTransition
 * record they return (MoveTransition.java).
 */
module Play {
  import opened Wrappers
  import opened Seqs
  import opened Alliances
  import opened Moves
  import opened Players
  import opened Boards
  import opened Execution

  /** MoveStatus: isDone holds only for DONE. */
  datatype MoveStatus = Done | IllegalMove | LeavesPlayerInCheck
  {
    predicate IsDone()
    {
      this == Done
    }
  }

  /** MoveTransition: three final fields, read back by the getters. */
  datatype MoveTransition = MoveTransition(transitionBoard: Board, move: Move, moveStatus: MoveStatus)
  {
    function GetMoveStatus(): MoveStatus
    {
      moveStatus
    }

    function GetTransitionBoard(): Board
    {
      transitionBoard
    }
  }

  /** The getters hand back exactly what the constructor was given. */
  lemma TransitionKeepsItsParts(transitionBoard: Board, move: Move, moveStatus: MoveStatus)
    ensures MoveTransition(transitionBoard, move, moveStatus).GetTransitionBoard() == transitionBoard
    ensures MoveTransition(transitionBoard, move, moveStatus).GetMoveStatus() == moveStatus
  {
  }

  /**
   * On the executed board, some legal move of the new current player lands on the square of its
   * opponent's king: the move would leave the mover's king attacked.
   */
  predicate KingLeftAttacked(transitionBoard: Board)
  {
    var current := transitionBoard.CurrentPlayer();
    var king := transitionBoard.PlayerOf(current.alliance.Opponent()).playerKing;
    exists m :: m in current.legalMoves && m.GetDestinationCoordinate() == king.piecePosition
  }

  /**
   * makeMove of the player of `side` on board `b`. An exception in execute (the null move, or an
   * executed board without a king) is a failure.
   */
  function MakeMove(b: Board, side: Alliance, m: Move, rule: CastleRule): (r: Result<MoveTransition>)
    ensures r.Success? ==> r.value.move == m
    ensures !b.PlayerOf(side).IsMoveLegal(m) ==> r == Success(MoveTransition(b, m, IllegalMove))
    ensures r.Failure? <==> b.PlayerOf(side).IsMoveLegal(m) && ExecuteMove(b, m, rule).Failure?
    ensures r.Success? && r.value.moveStatus == LeavesPlayerInCheck <==>
              b.PlayerOf(side).IsMoveLegal(m) && ExecuteMove(b, m, rule).Success? && KingLeftAttacked(ExecuteMove(b, m, rule).value)
    ensures r.Success? && r.value.moveStatus.IsDone() <==>
              b.PlayerOf(side).IsMoveLegal(m) && ExecuteMove(b, m, rule).Success? && !KingLeftAttacked(ExecuteMove(b, m, rule).value)
    ensures r.Success? && r.value.moveStatus.IsDone() ==> r.value.transitionBoard == ExecuteMove(b, m, rule).value
    ensures r.Success? && !r.value.moveStatus.IsDone() ==> r.value.transitionBoard == b
  {
    if !b.PlayerOf(side).IsMoveLegal(m) then Success(MoveTransition(b, m, IllegalMove))
    else
      var executed := ExecuteMove(b, m, rule);
      if executed.Failure? then Failure(executed.error)
      else
        var transitionBoard := executed.value;
        var current := transitionBoard.CurrentPlayer();
        var kingAttacks := AttacksOnTile(transitionBoard.PlayerOf(current.alliance.Opponent()).playerKing.piecePosition, current.legalMoves);
        if kingAttacks != [] then
          assert kingAttacks[0] in kingAttacks;
          Success(MoveTransition(b, m, LeavesPlayerInCheck))
        else Success(MoveTransition(transitionBoard, m, Done))
  }

  /** makeMove of the move goes through without an exception, and is not DONE. */
  predicate NotAnEscape(b: Board, side: Alliance, m: Move, rule: CastleRule)
  {
    MakeMove(b, side, m, rule).Success? && !MakeMove(b, side, m, rule).value.moveStatus.IsDone()
  }

  /** makeMove of the move gives DONE. */
  predicate Escapes(b: Board, side: Alliance, m: Move, rule: CastleRule)
  {
    MakeMove(b, side, m, rule).Success? && MakeMove(b, side, m, rule).value.moveStatus.IsDone()
  }

  /** makeMove of the move throws. */
  predicate MakeFails(b: Board, side: Alliance, m: Move, rule: CastleRule)
  {
    MakeMove(b, side, m, rule).Failure?
  }

  /** hasEscapeMoves over a list: the first move whose makeMove is DONE answers true; an exception ends the loop. */
  function EscapeAmong(b: Board, side: Alliance, moves: seq<Move>, rule: CastleRule): (r: Result<bool>)
    ensures r == Success(true) ==> exists i :: 0 <= i < |moves| && Escapes(b, side, moves[i], rule)
    ensures r == Success(false) <==> forall i :: 0 <= i < |moves| ==> NotAnEscape(b, side, moves[i], rule)
    ensures r.Failure? ==> exists i :: 0 <= i < |moves| && MakeFails(b, side, moves[i], rule)
  {
    if moves == [] then Success(false)
    else
      var transition := MakeMove(b, side, moves[0], rule);
      if transition.Failure? then Failure(transition.error)
      else if transition.value.moveStatus.IsDone() then Success(true)
      else
        var rest := EscapeAmong(b, side, moves[1..], rule);
        EscapeShift(b, side, moves, rule);
        rest
  }

  /** What holds of some or every move after the first holds of some or every move of the list. */
  lemma EscapeShift(b: Board, side: Alliance, moves: seq<Move>, rule: CastleRule)
    requires moves != []
    ensures (exists i :: 0 <= i < |moves[1..]| && Escapes(b, side, moves[1..][i], rule)) ==>
              exists i :: 0 <= i < |moves| && Escapes(b, side, moves[i], rule)
    ensures (exists i :: 0 <= i < |moves[1..]| && MakeFails(b, side, moves[1..][i], rule)) ==>
              exists i :: 0 <= i < |moves| && MakeFails(b, side, moves[i], rule)
    ensures (forall i :: 0 <= i < |moves| ==> NotAnEscape(b, side, moves[i], rule)) <==>
              NotAnEscape(b, side, moves[0], rule) && forall i :: 0 <= i < |moves[1..]| ==> NotAnEscape(b, side, moves[1..][i], rule)
  {
    ExistsInTail(moves, m => Escapes(b, side, m, rule));
    ExistsInTail(moves, m => MakeFails(b, side, m, rule));
    ForallSplit(moves, m => NotAnEscape(b, side, m, rule));
  }

  /** Player.hasEscapeMoves: a search of the player's legal moves for one makeMove accepts. */
  method HasEscapeMoves(b: Board, side: Alliance, rule: CastleRule) returns (r: Result<bool>)
    ensures r == EscapeAmong(b, side, b.PlayerOf(side).legalMoves, rule)
  {
    var legalMoves := b.PlayerOf(side).legalMoves;
    for i := 0 to |legalMoves|
      invariant EscapeAmong(b, side, legalMoves, rule) == EscapeAmong(b, side, legalMoves[i..], rule)
    {
      var move := legalMoves[i];
      assert legalMoves[i..][1..] == legalMoves[i + 1..];
      var transition := MakeMove(b, side, move, rule);
      if transition.Failure? {
        return Failure(transition.error);
      }
      if transition.value.GetMoveStatus().IsDone() {
        return Success(true);
      }
    }
    return Success(false);
  }

  /** isInCheckMate: in check, and no escape move (the escape search runs only when in check). */
  function IsInCheckMate(b: Board, side: Alliance, rule: CastleRule): (r: Result<bool>)
    ensures r == Success(true) <==> b.PlayerOf(side).isInCheck && EscapeAmong(b, side, b.PlayerOf(side).legalMoves, rule) == Success(false)
    ensures !b.PlayerOf(side).isInCheck ==> r == Success(false)
  {
    if !b.PlayerOf(side).isInCheck then Success(false)
    else
      var escape := EscapeAmong(b, side, b.PlayerOf(side).legalMoves, rule);
      if escape.Failure? then Failure(escape.error) else Success(!escape.value)
  }

  /** isInStaleMate: not in check, and no escape move. */
  function IsInStaleMate(b: Board, side: Alliance, rule: CastleRule): (r: Result<bool>)
    ensures r == Success(true) <==> !b.PlayerOf(side).isInCheck && EscapeAmong(b, side, b.PlayerOf(side).legalMoves, rule) == Success(false)
    ensures b.PlayerOf(side).isInCheck ==> r == Success(false)
  {
    if b.PlayerOf(side).isInCheck then Success(false)
    else
      var escape := EscapeAmong(b, side, b.PlayerOf(side).legalMoves, rule);
      if escape.Failure? then Failure(escape.error) else Success(!escape.value)
  }

  /** Checkmate and stalemate exclude each other. */
  lemma MateAndStaleMateExclusive(b: Board, side: Alliance, rule: CastleRule)
    ensures !(IsInCheckMate(b, side, rule) == Success(true) && IsInStaleMate(b, side, rule) == Success(true))
  {
  }

  /**
   * Checkmate in its own terms: the player is in check and every one of its legal moves is either
   * rejected or leaves its king attacked, with no exception on the way.
   */
  lemma CheckMateMeansNoMoveHelps(b: Board, side: Alliance, rule: CastleRule)
    requires IsInCheckMate(b, side, rule) == Success(true)
    ensures b.PlayerOf(side).isInCheck
    ensures forall m :: m in b.PlayerOf(side).legalMoves ==>
              ExecuteMove(b, m, rule).Success? && KingLeftAttacked(ExecuteMove(b, m, rule).value)
  {
    var player := b.PlayerOf(side);
    forall m | m in player.legalMoves
      ensures ExecuteMove(b, m, rule).Success? && KingLeftAttacked(ExecuteMove(b, m, rule).value)
    {
      ListedMovesAreLegal(player, m);
      var i :| 0 <= i < |player.legalMoves| && player.legalMoves[i] == m;
      assert NotAnEscape(b, side, player.legalMoves[i], rule);
      assert player.IsMoveLegal(m) by {
        assert m.Equals(player.legalMoves[i]);
      }
    }
  }
}
