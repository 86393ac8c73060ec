/** The shape of the asynchronous exchanges with the two emissions services.
    The network itself is not modelled: a call site receives what the awaited
    request produced as a value. */
module Http {
  import opened Wrappers

  /** What an awaited `axios.post` produced: the response body, or a rejection.
      A rejection carries the message found at the service's error path of the
      error response body; None when there was no response, no such field, or
      a value that is not a string. */
  datatype AxiosOutcome<D> = Received(data: D) | AxiosFailed(upstreamMessage: Option<string>)

  /** One call of a service function: the request body that went on the wire
      (None when the call failed before any request was built) and the value
      the returned promise settled with (`Failure` for a rejection with that
      message). */
  datatype Exchange<Req, T> = Exchange(sent: Option<Req>, result: Result<T, string>)

  /** One run of a form's submit handler: the state once the synchronous
      set-up before the awaited call has run, the request handed to the
      service (None when none was), and the state once the handler finished. */
  datatype Submission<Req, S> = Submission(pending: S, sent: Option<Req>, settled: S)

  /** `message || fallback`: an absent or empty message gives the fallback. */
  function MessageOr(message: Option<string>, fallback: string): (r: string)
    ensures message.Some? && message.value != "" ==> r == message.value
    ensures message.None? || message.value == "" ==> r == fallback
  {
    if message.Some? && message.value != "" then message.value else fallback
  }
}
