/** Values that stand for Python's `None` and for the exceptions the agent's
    code can raise, so that every error path is a result instead of a crash. */
module Outcomes {

  datatype Option<+T> = None | Some(value: T)

  /** The exceptions the agent can raise, plus the one way an injected draw
      stream can fail to stand in for an endless random source. */
  datatype Error =
    | DivisionByZero  // Python's ZeroDivisionError
    | EmptyRange      // Python's ValueError from randint(lo, hi) with hi < lo
    | DrawsExhausted  // the injected draw stream ran out inside a redraw loop

  datatype Result<+T> = Success(value: T) | Failure(error: Error)
}
