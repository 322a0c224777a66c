/** Optional values and error results, standing in for `undefined`, `null`
    and thrown errors of the modelled TypeScript code. */
module Common {

  datatype Option<+T> = None | Some(value: T)

  datatype Result<+T, +E> = Success(value: T) | Failure(error: E)

  /** An error raised towards the API client: the ORPC error code and its message. */
  datatype ApiError = ApiError(code: string, message: string)
}
