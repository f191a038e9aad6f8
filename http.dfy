/**
 * Responses, cookies, the failures a handler can throw, and the Express response object.
 *
 * A handler either throws (the wrapper forwards the error to Express's error handler) or
 * calls `res.status(..).json(..)`. Several handlers send an error response WITHOUT
 * returning and keep executing; a second `json` on the same response throws
 * ERR_HTTP_HEADERS_SENT. An `Exchange` records both halves: the first response that was
 * sent and the failure that escaped the handler.
 */
module Http {
  import opened Wrappers
  import opened JsString

  /** The cookie options the session handlers use for every cookie they set or clear. */
  datatype CookieOptions = CookieOptions(httpOnly: bool, secure: bool, sameSite: string)

  const SessionCookieOptions := CookieOptions(true, true, "None")

  datatype CookieOp =
    | SetCookie(name: string, value: string, options: CookieOptions)
    | ClearCookie(name: string, options: CookieOptions)

  /** A JSON body: the `ApiResponse` envelope, or the ad-hoc `{error, success: "false"}`. */
  datatype Body<D> =
    | ApiResponse(statusCode: int, data: D, message: string)
    | ErrorJson(error: string, success: string)

  datatype Response<D> = Response(status: int, cookies: seq<CookieOp>, body: Body<D>)

  /** `res.status(status).json({error: message, success: "false"})`. */
  function ErrorReply<D>(status: int, message: string): Response<D> {
    Response(status, [], ErrorJson(message, "false"))
  }

  /** What a handler can throw. */
  datatype Failure =
    | ApiError(status: int, message: string)   // `new ApiError(status, message)`
    | TypeError(message: string)               // a property read on `null` or `undefined`
    | LibraryError(message: string)            // an error raised inside bcrypt or jsonwebtoken
    | HeadersAlreadySent                       // a second `json` on a response already sent

  /** `error.message`. */
  function Message(f: Failure): string {
    match f
    case ApiError(_, m) => m
    case TypeError(m) => m
    case LibraryError(m) => m
    case HeadersAlreadySent => "Cannot set headers after they are sent to the client"
  }

  /** `throw new ApiError(401, error?.message || fallback)` in a `catch` block: whatever was
      caught becomes a 401 whose message is JavaScript's `||` of the caught message and the
      fallback. */
  function Rethrow401(f: Failure, fallback: string): (r: Failure)
    ensures r.ApiError? && r.status == 401
    ensures r.message == Or(Some(Message(f)), Some(fallback)).value
  {
    ApiError(401, if Message(f) != "" then Message(f) else fallback)
  }

  /** The message of a property read on `null`. */
  function NullReadMessage(property: string): string {
    "Cannot read properties of null (reading '" + property + "')"
  }

  /** The status Express's default error handler answers with: the error's own status code
      for an `ApiError`, 500 for anything else. */
  function ErrorStatus(f: Failure): int {
    if f.ApiError? then f.status else 500
  }

  /** What one request did to the client: the first response sent and the failure that
      escaped the handler. */
  datatype Exchange<D> = Exchange(sent: Option<Response<D>>, escaped: Option<Failure>) {

    /** The status the client receives: that of the response already sent, otherwise the
        error handler's; `None` if the request is left unanswered. */
    function DeliveredStatus(): (s: Option<int>)
      ensures sent.Some? ==> s == Some(sent.value.status)
      ensures sent.None? && escaped.Some? ==> s == Some(ErrorStatus(escaped.value))
    {
      if sent.Some? then Some(sent.value.status)
      else if escaped.Some? then Some(ErrorStatus(escaped.value))
      else None
    }
  }

  /** A thrown error: nothing was sent. */
  function Thrown<D>(f: Failure): Exchange<D> {
    Exchange(None, Some(f))
  }

  /** A response sent and the handler returned normally. */
  function Replied<D>(r: Response<D>): Exchange<D> {
    Exchange(Some(r), None)
  }

  /** The Express response object, as far as sending goes. */
  class Res<D> {
    var sent: Option<Response<D>>

    constructor ()
      ensures sent == None
    {
      sent := None;
    }

    /** `res.status(..).cookie(..).json(..)`: the first call sends, a later call throws. */
    method Send(r: Response<D>) returns (threw: bool)
      modifies this
      ensures threw == old(sent).Some?
      ensures sent == if threw then old(sent) else Some(r)
    {
      threw := sent.Some?;
      if !threw {
        sent := Some(r);
      }
    }
  }
}
