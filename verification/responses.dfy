/** How the pages see an API call: it succeeded with data, answered `success: false` with an optional
    message, or threw. */
module Responses {
  import opened Wrappers

  datatype Response<T> = Ok(data: T) | Refused(message: Option<string>) | Threw

  /** `response.message || fallback`: an absent or empty message gives the fallback. */
  function MessageOr(message: Option<string>, fallback: string): (text: string)
    ensures fallback != [] ==> text != []
    ensures message.Some? && message.value != [] ==> text == message.value
    ensures message.None? || message.value == [] ==> text == fallback
  {
    OrElse(message.GetOr([]), fallback)
  }

  /** `x || fallback` for a string: an empty string gives the fallback. */
  function OrElse(x: string, fallback: string): (text: string)
    ensures x != [] ==> text == x
    ensures x == [] ==> text == fallback
  {
    if x != [] then x else fallback
  }
}
