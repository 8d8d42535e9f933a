/** Option and Result, the model's stand-ins for Python's None and raised HTTP errors. */
module Wrappers {

  datatype Option<+T> = None | Some(value: T)

  /** An HTTP error as FastAPI's HTTPException carries it: a status code and a detail text. */
  datatype HttpError = HttpError(status: int, detail: string)

  /** An unhandled exception inside a request handler surfaces as a 500. */
  const ServerError: HttpError := HttpError(500, "Internal Server Error")

  datatype Result<+T> = Ok(value: T) | Err(error: HttpError)

  /** The items collected so far in front of the outcome for the remaining input. */
  function Prepend<T>(done: seq<T>, rest: Result<seq<T>>): Result<seq<T>> {
    match rest
    case Ok(hs) => Ok(done + hs)
    case Err(e) => Err(e)
  }
}
