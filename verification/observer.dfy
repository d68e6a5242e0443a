/** The address observer: one GET to the echo service, whose body is the caller's public address. */
module Observer {
  import opened Wrappers

  /** The echo endpoint queried on every cycle. */
  const IpCheckApi: string := "https://api.ipify.org"

  /** How the GET to the echo endpoint ended; the network itself is outside the model. */
  datatype Fetch =
    | GetFailed(cause: string)     // the request could not be made or answered
    | ReadFailed(cause: string)    // the response body could not be read
    | Body(text: string)           // the whole body, as received

  /** The current address, or the error text the cycle logs. The body is taken verbatim:
      no status-code check, no trimming, no address syntax check. */
  function CurrentIp(f: Fetch): (r: Result<string, string>)
    ensures r.Success? <==> f.Body?
    ensures r.Success? ==> r.value == f.text
    ensures f.GetFailed? ==> r == Failure("failed to get current IP: " + f.cause)
    ensures f.ReadFailed? ==> r == Failure("failed to read IP response: " + f.cause)
  {
    match f
    case GetFailed(cause) => Failure("failed to get current IP: " + cause)
    case ReadFailed(cause) => Failure("failed to read IP response: " + cause)
    case Body(text) => Success(text)
  }
}
