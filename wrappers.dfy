/** Option and Result, the stand-ins for Java's null and for the engine's runtime exceptions. */
module Wrappers {

  /** A value that the Java code may leave null. */
  datatype Option<+T> = None | Some(value: T)

  /** The runtime failures the engine can raise. */
  datatype Fault =
    | InvalidChessboard   // Player.establishKing found no king ("This is not a valid Chessboard!")
    | MissingMoveMaker    // build() with no side to move: choosePlayer on a null alliance
    | NullMoveExecution   // NullMove.execute() ("cannot execute the Null Move")

  /** The outcome of an operation that either returns a value or raises a fault. */
  datatype Result<+T> = Success(value: T) | Failure(error: Fault)
}
