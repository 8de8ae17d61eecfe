/** What the two data providers (metadata and library assets) share: how a
    request settles and how a rejection becomes the error message shown. */
module Providers {
  import opened Json

  /** How a `get_data` request settled: its data, or the rejection reason. */
  datatype Fetched<T> = Fetched(value: T) | FetchFailed(reason: Value)

  const UnknownError := "Unknown Error"

  /** The message of an error state: the rejection reason when it is a
      string, a fixed fallback otherwise. */
  function ErrorMessage(reason: Value): (r: string)
    ensures reason.Str? ==> r == reason.s
    ensures !reason.Str? ==> r == UnknownError
  {
    if reason.Str? then reason.s else UnknownError
  }
}
