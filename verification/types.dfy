/**
 The value domains of the COM-RPC plugin starter: the fixed-width parameters
 of `activatePlugin` and the result codes of an `Activate` request, kept as
 tags rather than numeric hresult values.
 */
module Types {

  /** `uint8_t`: the domain of `maxRetries` and of the retries hint. */
  type uint8 = x: int | 0 <= x < 0x100

  /** `uint16_t`: the domain of `retryDelayMs` and of the delay hint. */
  type uint16 = x: int | 0 <= x < 0x1_0000

  /** The result of `IPluginAsyncStateControl::Activate`, as a tag.
      `ComError` stands for every code with the COM error bit set; `Other`
      for every code that is neither a COM error nor one of the named ones. */
  datatype HResult =
    | ErrorNone
    | ComError(code: nat)
    | InProgress
    | IllegalState
    | NotExist
    | Other(code: nat)

  /** How the loop treats an `Activate` result. */
  datatype Verdict =
    | Accepted      // ERROR_NONE: nothing happens, the loop goes round again
    | LinkFailure   // COM error: release, count a retry, sleep
    | Rejected      // anything else: release and leave the loop

  /** The order of the tests in the loop body: ERROR_NONE first, then the
      COM error bit, then the switch over the remaining codes. */
  function Classify(h: HResult): (v: Verdict)
    ensures v == Accepted <==> h == ErrorNone
    ensures v == LinkFailure <==> h.ComError?
    ensures v == Rejected <==> (h.InProgress? || h.IllegalState? || h.NotExist? || h.Other?)
  {
    if h == ErrorNone then Accepted
    else if h.ComError? then LinkFailure
    else Rejected
  }
}
