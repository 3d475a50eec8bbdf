/** The structured error body and the response entity that carries it. */
module ErrorResponses {
  import opened Wrappers
  import opened Http

  /** A point in time, as read from the clock when a body is built. */
  type Instant = int

  /** The error body: status, its numeric code, the (nullable) message, capture time and binding errors. */
  datatype ErrorResponse = ErrorResponse(
    status: HttpStatus,
    code: int,
    message: Option<string>,
    timestamp: Instant,
    bindingErrors: seq<string>)

  /** The numeric code agrees with the status. */
  predicate CodeMatchesStatus(body: ErrorResponse)
  {
    body.code == body.status.Value()
  }

  /** The three-argument constructor; `now` is the reading of `Instant.now()`. */
  function WithBindingErrors(status: HttpStatus, message: Option<string>, bindingErrors: seq<string>, now: Instant): (r: ErrorResponse)
    ensures CodeMatchesStatus(r) && r.status == status
    ensures r.message == message && r.bindingErrors == bindingErrors && r.timestamp == now
  {
    ErrorResponse(status, status.Value(), message, now, bindingErrors)
  }

  /** The two-argument constructor: the same as the three-argument one with no binding errors. */
  function WithMessage(status: HttpStatus, message: Option<string>, now: Instant): (r: ErrorResponse)
    ensures r == WithBindingErrors(status, message, [], now)
    ensures CodeMatchesStatus(r) && r.bindingErrors == []
  {
    ErrorResponse(status, status.Value(), message, now, [])
  }

  /** A response entity: the body and the HTTP status it is sent with. */
  datatype ErrorResponseEntity = ErrorResponseEntity(body: ErrorResponse, statusCode: HttpStatus)

  /** `ErrorResponseEntity(body)`: the response is sent with the body's own status. */
  function EntityOf(body: ErrorResponse): (r: ErrorResponseEntity)
    ensures r.body == body && r.statusCode == body.status
  {
    ErrorResponseEntity(body, body.status)
  }

  /** A well-formed entity: sent with its body's status, whose code it carries. */
  predicate Consistent(r: ErrorResponseEntity)
  {
    r.statusCode == r.body.status && CodeMatchesStatus(r.body)
  }

  function Conflict(message: Option<string>, now: Instant): (r: ErrorResponseEntity)
    ensures Consistent(r) && r.statusCode == HttpStatus.Conflict && r.statusCode.Value() == 409
    ensures r.body.message == message && r.body.bindingErrors == [] && r.body.timestamp == now
  {
    EntityOf(WithMessage(HttpStatus.Conflict, message, now))
  }

  function BadRequest(message: Option<string>, now: Instant): (r: ErrorResponseEntity)
    ensures Consistent(r) && r.statusCode == HttpStatus.BadRequest && r.statusCode.Value() == 400
    ensures r.body.message == message && r.body.bindingErrors == [] && r.body.timestamp == now
  {
    EntityOf(WithMessage(HttpStatus.BadRequest, message, now))
  }

  function BadRequestWithBindingErrors(message: Option<string>, bindingErrors: seq<string>, now: Instant): (r: ErrorResponseEntity)
    ensures Consistent(r) && r.statusCode == HttpStatus.BadRequest && r.statusCode.Value() == 400
    ensures r.body.message == message && r.body.bindingErrors == bindingErrors && r.body.timestamp == now
  {
    EntityOf(WithBindingErrors(HttpStatus.BadRequest, message, bindingErrors, now))
  }

  function NotFound(message: Option<string>, now: Instant): (r: ErrorResponseEntity)
    ensures Consistent(r) && r.statusCode == HttpStatus.NotFound && r.statusCode.Value() == 404
    ensures r.body.message == message && r.body.bindingErrors == [] && r.body.timestamp == now
  {
    EntityOf(WithMessage(HttpStatus.NotFound, message, now))
  }

  function ServerError(message: Option<string>, now: Instant): (r: ErrorResponseEntity)
    ensures Consistent(r) && r.statusCode == HttpStatus.InternalServerError && r.statusCode.Value() == 500
    ensures r.body.message == message && r.body.bindingErrors == [] && r.body.timestamp == now
  {
    EntityOf(WithMessage(HttpStatus.InternalServerError, message, now))
  }

  /** The two bad-request factories agree exactly when no binding errors are given. */
  lemma BadRequestOverloads(message: Option<string>, bindingErrors: seq<string>, now: Instant)
    ensures BadRequestWithBindingErrors(message, bindingErrors, now) == BadRequest(message, now) <==> bindingErrors == []
  {
  }

}
