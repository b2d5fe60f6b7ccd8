/** Network calls as values: every request the screens make either throws
    (a transport failure, or an axios rejection) or yields a status with a body. */
module Http {
  import opened Js

  /** What the caught error exposes: `error.message` and `error.response?.data?.message`. */
  datatype ErrorInfo = ErrorInfo(message: string, serverMessage: Option<string>)

  datatype Reply<+T> = Threw(error: ErrorInfo) | Replied(status: int, data: T)

  /** `response.ok` of the fetch API: a status in the range 200-299. */
  predicate IsOk(status: int) {
    200 <= status <= 299
  }

  /** A request body that carries nothing the model needs. */
  datatype Empty = Empty
}
