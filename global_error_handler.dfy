/** The controller advice that turns the library's exceptions into error responses. */
module GlobalErrorHandler {
  import opened Wrappers
  import opened Http
  import opened ErrorResponses

  /** The exception types the advice handles, plus every other type. */
  datatype ExceptionKind =
    | DuplicateEntityException
    | InvalidEntityException
    | PatchInvalidException
    | EntityNotFoundException
    | ServiceException
    | VerifyException
    | OtherException

  /** A raised exception: its type and its (nullable) message. */
  datatype Exception = Exception(kind: ExceptionKind, message: Option<string>)

  /**
   * The six `forumException` handlers. An exception of any other type is not
   * handled here (`None`).
   */
  function ForumException(e: Exception, now: Instant): (r: Option<ErrorResponseEntity>)
    ensures r.None? <==> e.kind == OtherException
    ensures r.Some? ==> Consistent(r.value) && r.value.body.message == e.message
    ensures r.Some? ==> r.value.body.bindingErrors == [] && r.value.body.timestamp == now
    ensures e.kind == DuplicateEntityException ==> r.Some? && r.value.statusCode == HttpStatus.Conflict && r.value.statusCode.Value() == 409
    ensures e.kind == InvalidEntityException ==> r.Some? && r.value.statusCode == HttpStatus.BadRequest && r.value.statusCode.Value() == 400
    ensures e.kind == PatchInvalidException ==> r.Some? && r.value.statusCode == HttpStatus.BadRequest && r.value.statusCode.Value() == 400
    ensures e.kind == EntityNotFoundException ==> r.Some? && r.value.statusCode == HttpStatus.NotFound && r.value.statusCode.Value() == 404
    ensures e.kind == ServiceException ==> r.Some? && r.value.statusCode == HttpStatus.InternalServerError && r.value.statusCode.Value() == 500
    ensures e.kind == VerifyException ==> r.Some? && r.value.statusCode == HttpStatus.BadRequest && r.value.statusCode.Value() == 400
  {
    match e.kind
    case DuplicateEntityException => Some(ErrorResponses.Conflict(e.message, now))
    case InvalidEntityException => Some(ErrorResponses.BadRequest(e.message, now))
    case PatchInvalidException => Some(ErrorResponses.BadRequest(e.message, now))
    case EntityNotFoundException => Some(ErrorResponses.NotFound(e.message, now))
    case ServiceException => Some(ErrorResponses.ServerError(e.message, now))
    case VerifyException => Some(ErrorResponses.BadRequest(e.message, now))
    case OtherException => None
  }

  /** Some exception is answered with status `s`. */
  ghost predicate Produces(s: HttpStatus, now: Instant)
  {
    exists e: Exception :: ForumException(e, now).Some? && ForumException(e, now).value.statusCode == s
  }

  /**
   * The advice answers only with the four named statuses 400, 404, 409 and
   * 500, and it produces each of them.
   */
  lemma ProducedStatuses(now: Instant)
    ensures forall e: Exception :: ForumException(e, now).Some? ==> !ForumException(e, now).value.statusCode.Other?
    ensures forall e: Exception :: ForumException(e, now).Some? ==> ForumException(e, now).value.statusCode.Value() in {400, 404, 409, 500}
    ensures forall s: HttpStatus :: Produces(s, now) <==> !s.Other?
  {
    forall s: HttpStatus | !s.Other? ensures Produces(s, now) {
      var kind := match s
        case BadRequest => InvalidEntityException
        case NotFound => EntityNotFoundException
        case Conflict => DuplicateEntityException
        case InternalServerError => ServiceException;
      var e := Exception(kind, None);
      assert ForumException(e, now).value.statusCode == s;
    }
  }

}
