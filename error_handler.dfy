/** The route's `try`/`catch` together with the error-handling middleware
    (src/middleware/errorHandler.js): a success is sent as a 200 response with
    the quote; an error is sent with the status the handler set, or 500 when
    it set none, and with the error's message. */
module ErrorHandler {
  import opened Wrappers
  import opened JsValues
  import opened ReferenceData
  import opened Discount

  datatype Body = QuoteBody(quote: Quote) | ErrorBody(message: string)

  datatype Reply = Reply(status: int, body: Body)

  /** `res.statusCode === 200 ? 500 : res.statusCode`: an error that reaches
      the middleware while the status is still the default is a server error. */
  function ResponseStatus(statusCode: int): (s: int)
    ensures s != 200
    ensures statusCode != 200 ==> s == statusCode
  {
    if statusCode == 200 then 500 else statusCode
  }

  /** `err.message || 'Internal Server Error'`. */
  function ResponseMessage(message: string): (m: string)
    ensures m != ""
    ensures message != "" ==> m == message
    ensures message == "" ==> m == "Internal Server Error"
  {
    if message == "" then "Internal Server Error" else message
  }

  /** The HTTP status an engine failure is finally sent with. */
  function HttpStatus(f: Failure): (s: int)
    ensures s == 400 <==> (f.MissingAgeRange? || f.MissingZipCode? || f.MissingDeviceType? ||
                           f.MissingDeviceAge? || f.BadDeviceAge?)
    ensures s == 404 <==> f.ZipNotFound?
    ensures s == 500 <==> (f.InvalidAgeRange? || f.DeviceTypeNotAString? ||
                           f.DeviceTypeNotFound? || f.NoMatchingBucket?)
  {
    ResponseStatus(StatusCode(f))
  }

  /** One request from body to reply. */
  function Respond(req: Request, zips: ZipTable, devices: DeviceTable, rt: Runtime): (reply: Reply)
    ensures reply.status == 200 <==> Evaluate(req, zips, devices, rt).Ok?
    ensures reply.status == 200 ==> reply.body == QuoteBody(Evaluate(req, zips, devices, rt).value)
    ensures reply.status != 200 ==>
              var f := Evaluate(req, zips, devices, rt).error;
              reply == Reply(HttpStatus(f), ErrorBody(Message(f)))
  {
    match Evaluate(req, zips, devices, rt)
    case Ok(q) => Reply(200, QuoteBody(q))
    case Err(f) => Reply(HttpStatus(f), ErrorBody(ResponseMessage(Message(f))))
  }
}
