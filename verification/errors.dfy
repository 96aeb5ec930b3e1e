/**
  The mapping from an internal error reason to the `{code, message}` record the
  API returns (`NewAPIError` in model/errors.go).

  The Go function receives an `error` and switches on `errReason.Error()`, so
  it is modelled as a function of that string. Go's `switch` does not fall
  through: the cases "RATE_LIMITER_ERROR" and "INVALID_DATA_FOUND" have empty
  bodies, so for them control leaves the switch and reaches the final
  `GENERIC_ERROR` return.
 */
module Errors {

  datatype APIError = APIError(code: string, message: string)

  const RateLimitReached: string := "RATE_LIMIT_REACHED"
  const RateLimiterError: string := "RATE_LIMITER_ERROR"
  const InvalidDataFound: string := "INVALID_DATA_FOUND"
  const FetchError: string := "FETCH_ERROR"
  const GenericError: string := "GENERIC_ERROR"

  const RateLimitMessage: string :=
    "github rate limit reached. consider using a token to increase the limit or wait few minutes and try again"
  const InternalErrorMessage: string :=
    "internal server error. contact our support with the reason code for assistance"

  /**
    Where the switch leaves control: a case that returns a record, or a case
    whose body is empty, after which execution continues below the switch.
   */
  datatype SwitchExit = Returned(e: APIError) | LeftSwitch

  /**
    The switch of `NewAPIError`, one Go case per branch, in source order.
    Control leaves the switch exactly for the two empty cases; every case that
    returns echoes the reason as the code.
   */
  function ReasonSwitch(reason: string): (x: SwitchExit)
    ensures x.LeftSwitch? <==> reason == RateLimiterError || reason == InvalidDataFound
    ensures x.Returned? ==> x.e.code == reason
    ensures x.Returned? ==> (x.e.message == RateLimitMessage <==> reason == RateLimitReached)
  {
    if reason == RateLimitReached then Returned(APIError(RateLimitReached, RateLimitMessage))
    else if reason == RateLimiterError then LeftSwitch
    else if reason == InvalidDataFound then LeftSwitch
    else if reason == FetchError then Returned(APIError(reason, InternalErrorMessage))
    else Returned(APIError(reason, InternalErrorMessage))
  }

  /**
    `NewAPIError`, as written: the rate-limit reason gets its own code and
    message; the two reasons whose cases are empty get `GENERIC_ERROR`; every
    other reason, `FETCH_ERROR` included, is echoed as the code, with the
    internal-server-error message.
   */
  function NewAPIError(reason: string): (e: APIError)
    ensures reason == RateLimitReached ==> e == APIError(RateLimitReached, RateLimitMessage)
    ensures reason == RateLimiterError || reason == InvalidDataFound ==> e == APIError(GenericError, InternalErrorMessage)
    ensures reason != RateLimitReached && reason != RateLimiterError && reason != InvalidDataFound
      ==> e == APIError(reason, InternalErrorMessage)
  {
    match ReasonSwitch(reason)
    case Returned(e) => e
    case LeftSwitch => APIError(GenericError, InternalErrorMessage)
  }

  /** The code is always the reason itself or `GENERIC_ERROR`. */
  lemma CodeIsReasonOrGeneric(reason: string)
    ensures NewAPIError(reason).code == reason || NewAPIError(reason).code == GenericError
  {
  }

  /** The code is `GENERIC_ERROR` exactly for the two empty cases and for the reason "GENERIC_ERROR" itself. */
  lemma GenericCodeExactly(reason: string)
    ensures NewAPIError(reason).code == GenericError
        <==> reason == RateLimiterError || reason == InvalidDataFound || reason == GenericError
  {
  }

  /** Every reason except the rate-limit one gets the internal-server-error message. */
  lemma MessageIsInternalUnlessRateLimited(reason: string)
    ensures NewAPIError(reason).message == InternalErrorMessage <==> reason != RateLimitReached
    ensures NewAPIError(reason).message == RateLimitMessage <==> reason == RateLimitReached
  {
  }

  /** The reason can be recovered from the record whenever the code is not `GENERIC_ERROR`. */
  lemma ReasonRecoverableFromCode(reason: string)
    requires NewAPIError(reason).code != GenericError
    ensures NewAPIError(reason).code == reason
  {
  }

  // ---------------------------------------------------------------------------
  // The evidently intended mapping: the three adjacent internal reasons share
  // one case, as `case "RATE_LIMITER_ERROR", "INVALID_DATA_FOUND", "FETCH_ERROR":`.
  // ---------------------------------------------------------------------------

  /** The switch with the three internal reasons grouped in one case list. */
  function GroupedReasonSwitch(reason: string): SwitchExit {
    if reason == RateLimitReached then Returned(APIError(RateLimitReached, RateLimitMessage))
    else if reason == RateLimiterError || reason == InvalidDataFound || reason == FetchError then
      Returned(APIError(reason, InternalErrorMessage))
    else Returned(APIError(reason, InternalErrorMessage))
  }

  /** The corrected mapping: every reason is reported as its own code. */
  function NewAPIErrorGrouped(reason: string): (e: APIError)
    ensures e.code == reason
    ensures e.message == RateLimitMessage <==> reason == RateLimitReached
    ensures e.message == InternalErrorMessage <==> reason != RateLimitReached
  {
    match GroupedReasonSwitch(reason)
    case Returned(e) => e
    case LeftSwitch => APIError(GenericError, InternalErrorMessage)
  }

  /** The written and the intended mappings differ on exactly the two empty cases. */
  lemma WrittenDiffersFromGroupedOnEmptyCases(reason: string)
    ensures NewAPIError(reason) != NewAPIErrorGrouped(reason)
        <==> reason == RateLimiterError || reason == InvalidDataFound
  {
  }

  /** A concrete witness: a validation failure loses its reason code as written. */
  lemma InvalidDataLosesItsCode()
    ensures NewAPIError(InvalidDataFound).code == GenericError
    ensures NewAPIErrorGrouped(InvalidDataFound).code == InvalidDataFound
  {
  }
}
