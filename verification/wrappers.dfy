/** Failure-carrying results shared by every module of the renderer model.

    The Python code raises `ZeroDivisionError`, `IndexError`, `ValueError`,
    `FileNotFoundError` and `AttributeError`; the TypeScript code throws plain `Error`s.
    Both are modelled as a `Failure` carrying the kind of error, so that every operation
    stays a total function. */
module Wrappers {

  /** The error kinds the renderer can raise. */
  datatype Error =
    | DivisionByZero        // Python ZeroDivisionError; TS "Attempted to divide by zero"
                            // and "Attempted to divide by zero quaternion"
    | IndexOutOfRange       // Python IndexError, TS access of a missing array element
    | BadFaceArity          // Python ValueError("Faces must be triangles or quads")
    | BadNumber             // Python ValueError from float() or int() on a malformed token
    | FileNotFound          // Python FileNotFoundError from open()
    | NoCamera              // Python AttributeError: `main_camera` is still None

  datatype Option<+T> = None | Some(value: T)

  /** A value or the error that was raised while computing it; usable with `:-`. */
  datatype Result<+T> = Success(value: T) | Failure(error: Error) {

    predicate IsFailure() {
      Failure?
    }

    function PropagateFailure<U>(): Result<U>
      requires Failure?
    {
      Failure(error)
    }

    function Extract(): T
      requires Success?
    {
      value
    }
  }
}
