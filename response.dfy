/**
 * The uniform API response envelope. The web framework's request context is
 * a class holding the request's key/value store and the log of JSON replies
 * written to it.
 */
module Response {
  import opened Dynamic

  const SuccessCode: int := 0
  const ErrorCode: int := 1
  const WarnCode: int := 2

  const StatusOK: int := 200
  const StatusInternalServerError: int := 500

  const RequestIDKey: string := "request_id"

  /** The JSON body: code, message, request id and data payload. */
  datatype Response = Response(code: int, message: string, requestID: string, data: Value)

  /** The caller's choices; an empty message and a zero status mean "use the default". */
  datatype Option = Option(httpStatus: int, code: int, message: string, data: Value)

  /** One call of `c.JSON(status, body)`. */
  datatype Reply = Reply(status: int, body: Response)

  class Context {
    var keys: map<string, Value>
    var sent: seq<Reply>

    constructor (keys: map<string, Value>)
      ensures this.keys == keys && sent == []
    {
      this.keys := keys;
      sent := [];
    }
  }

  /** `getRequestID(c)`: the "request_id" entry when it is a string, otherwise "". */
  function RequestID(keys: map<string, Value>): (id: string)
    ensures RequestIDKey in keys && keys[RequestIDKey].Str? ==> id == keys[RequestIDKey].s
    ensures RequestIDKey !in keys || !keys[RequestIDKey].Str? ==> id == ""
  {
    if RequestIDKey in keys then
      match keys[RequestIDKey]
      case Str(s) => s
      case _ => ""
    else ""
  }

  /** The message JSON substitutes for an empty one: by code, "info" for codes it does not know. */
  function DefaultMessage(code: int): (m: string)
    ensures m != ""
  {
    if code == SuccessCode then "success"
    else if code == WarnCode then "warning"
    else if code == ErrorCode then "error"
    else "info"
  }

  /** The options JSON writes: an empty message and a zero status are filled in, the rest kept. */
  function WithDefaults(opts: Option): (o: Option)
    ensures o.code == opts.code && o.data == opts.data
    ensures o.message != "" && o.httpStatus != 0
    ensures o.message == if opts.message == "" then DefaultMessage(opts.code) else opts.message
    ensures o.httpStatus == if opts.httpStatus == 0 then StatusOK else opts.httpStatus
  {
    var withMessage := if opts.message == "" then opts.(message := DefaultMessage(opts.code)) else opts;
    if withMessage.httpStatus == 0 then withMessage.(httpStatus := StatusOK) else withMessage
  }

  /** The defaults are applied once: filling in filled-in options changes nothing. */
  lemma WithDefaultsIdempotent(opts: Option)
    ensures WithDefaults(WithDefaults(opts)) == WithDefaults(opts)
  {
  }

  /** The four default messages. */
  lemma DefaultMessages(code: int)
    ensures DefaultMessage(SuccessCode) == "success"
    ensures DefaultMessage(WarnCode) == "warning"
    ensures DefaultMessage(ErrorCode) == "error"
    ensures code != SuccessCode && code != WarnCode && code != ErrorCode ==> DefaultMessage(code) == "info"
  {
  }

  /** `JSON(c, opts)`: fill in the defaults, then write the envelope with the request id. */
  method JSON(c: Context, opts: Option)
    modifies c`sent
    ensures c.sent == old(c.sent) + [Reply(WithDefaults(opts).httpStatus,
      Response(opts.code, WithDefaults(opts).message, RequestID(c.keys), opts.data))]
  {
    var o := opts;
    if o.message == "" {
      o := o.(message := DefaultMessage(o.code));
    }
    if o.httpStatus == 0 {
      o := o.(httpStatus := StatusOK);
    }
    c.sent := c.sent + [Reply(o.httpStatus, Response(o.code, o.message, RequestID(c.keys), o.data))];
  }

  /** `Success(c, msg, data)`: code 0 with status 200. */
  method Success(c: Context, msg: string, data: Value)
    modifies c`sent
    ensures c.sent == old(c.sent) + [Reply(StatusOK,
      Response(SuccessCode, if msg == "" then "success" else msg, RequestID(c.keys), data))]
  {
    JSON(c, Option(StatusOK, SuccessCode, msg, data));
  }

  /** `Warn(c, msg, data)`: code 2 with status 200. */
  method Warn(c: Context, msg: string, data: Value)
    modifies c`sent
    ensures c.sent == old(c.sent) + [Reply(StatusOK,
      Response(WarnCode, if msg == "" then "warning" else msg, RequestID(c.keys), data))]
  {
    JSON(c, Option(StatusOK, WarnCode, msg, data));
  }

  /** `Error(c, msg, data, httpStatus...)`: code 1; status the first extra argument if positive, else 500. */
  method Error(c: Context, msg: string, data: Value, httpStatus: seq<int>)
    modifies c`sent
    ensures c.sent == old(c.sent) + [Reply(
      if |httpStatus| > 0 && httpStatus[0] > 0 then httpStatus[0] else StatusInternalServerError,
      Response(ErrorCode, if msg == "" then "error" else msg, RequestID(c.keys), data))]
  {
    var status := StatusInternalServerError;
    if |httpStatus| > 0 && httpStatus[0] > 0 {
      status := httpStatus[0];
    }
    JSON(c, Option(status, ErrorCode, msg, data));
  }
}
