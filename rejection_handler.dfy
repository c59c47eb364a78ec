/**
 * handle_rejections: the last stop of a rejected request. It picks a status
 * and a message for the rejection, first match wins, and answers with an
 * ErrorResponse whose code repeats the status.
 */
module RejectionHandler {
  import opened Wrappers
  import opened Http
  import opened Auth
  import opened Rejections
  import Protocol

  /** The JSON body of every answer to a rejection. */
  datatype ErrorResponse = ErrorResponse(code: u16, message: string) {
    /** serde's serialisation of the struct: its fields in declaration order. */
    function ToJson(): Json {
      JObject([("code", JNumber(code)), ("message", JString(message))])
    }
  }

  /** The status and the message chosen for a rejection, in the handler's order of tests. */
  function Classify(err: Rejection): (StatusCode, string) {
    if err.NotFound? then (NOT_FOUND, "Not found")
    else match err.cause
      case Idp(e) =>
        if e.AuthenticationFailed? then (UNAUTHORIZED, e.Message())
        else if e.UsernameTaken? then (BAD_REQUEST, e.Message())
        else if e.AuthenticationError? then (UNAUTHORIZED, e.Message())
        else (UNAUTHORIZED, e.Message())
      case IdpCryptoError(display) => (INTERNAL_SERVER_ERROR, display)
      case Guard(g, display) =>
        if g.InternalError? then (INTERNAL_SERVER_ERROR, display)
        else if g.NoSessionIdHeader? then (UNAUTHORIZED, display)
        else (UNAUTHORIZED, display)
      case Unrecognised => (INTERNAL_SERVER_ERROR, "Internal Server Error")
  }

  /** A fault on the server's side: a crypto failure, a missing transaction, or a cause the handler does not know. */
  predicate IsServerFault(err: Rejection) {
    err.Custom? && (err.cause.IdpCryptoError? || (err.cause.Guard? && err.cause.guardError.InternalError?) || err.cause.Unrecognised?)
  }

  /** The message a client reads for a rejection, by its cause. */
  predicate MessageFits(err: Rejection, message: string) {
    match err
    case NotFound => message == "Not found"
    case Custom(Idp(e)) => message == e.Message()
    case Custom(IdpCryptoError(display)) => message == display
    case Custom(Guard(_, display)) => message == display
    case Custom(Unrecognised) => message == "Internal Server Error"
  }

  /**
   * handle_rejections. Never fails: every rejection is answered. Not found is
   * 404, a taken username 400, a server fault 500, and every other cause
   * (bad credentials, a storage error while authenticating or registering,
   * a missing or invalid session header) 401. The body's code is the status.
   */
  function HandleRejection(err: Rejection): (r: Reply)
    ensures Member(r.body, "code") == Some(JNumber(r.status))
    ensures exists message :: MessageFits(err, message) && Member(r.body, "message") == Some(JString(message))
    ensures r.status == NOT_FOUND <==> err.NotFound?
    ensures r.status == BAD_REQUEST <==> err == Custom(Idp(UsernameTaken))
    ensures r.status == INTERNAL_SERVER_ERROR <==> IsServerFault(err)
    ensures r.status == UNAUTHORIZED <==> !err.NotFound? && err != Custom(Idp(UsernameTaken)) && !IsServerFault(err)
  {
    var (code, message) := Classify(err);
    var body := ErrorResponse(code, message).ToJson();
    assert body.members[1..] == [("message", JString(message))];
    Reply(code, body)
  }

  /** The handler answers with exactly four statuses, and each of them is used. */
  lemma HandlerStatuses(code: StatusCode)
    ensures (exists err :: HandleRejection(err).status == code) <==>
            code in {BAD_REQUEST, UNAUTHORIZED, NOT_FOUND, INTERNAL_SERVER_ERROR}
  {
    if code == NOT_FOUND {
      assert HandleRejection(NotFound).status == code;
    } else if code == BAD_REQUEST {
      assert HandleRejection(Custom(Idp(UsernameTaken))).status == code;
    } else if code == UNAUTHORIZED {
      assert HandleRejection(Custom(Idp(AuthenticationFailed))).status == code;
    } else if code == INTERNAL_SERVER_ERROR {
      assert HandleRejection(Custom(Unrecognised)).status == code;
    }
  }

  /** A storage error is answered by its variant alone: which DB error it wraps changes nothing. */
  lemma DbErrorIsNotExposed(d: DbError, d': DbError)
    ensures HandleRejection(Custom(Idp(AuthenticationError(d)))) == HandleRejection(Custom(Idp(AuthenticationError(d'))))
    ensures HandleRejection(Custom(Idp(RegistrationError(d)))) == HandleRejection(Custom(Idp(RegistrationError(d'))))
  {
  }

  /** A value that is missing from an Option handler ends as 404 "Not found". */
  lemma MissingValueAnswersNotFound<T>(intoReply: T -> Reply)
    ensures Protocol.OptionIntoResponse(None, intoReply).Err?
    ensures HandleRejection(Protocol.OptionIntoResponse(None, intoReply).error)
            == Reply(NOT_FOUND, ErrorResponse(404, "Not found").ToJson())
  {
  }

  /**
   * An IDPError returned by a Result handler is replied to by into_response
   * and never reaches handle_rejections, so it is answered 401 even when it
   * is UsernameTaken, which handle_rejections would answer 400.
   */
  lemma IdpErrorFromHandlerIsUnauthorized<T>(e: IdpError, okReply: T -> Reply)
    ensures Protocol.ResultIntoResponse(Err(e), okReply, (x: IdpError) => x.IntoReply()) == Ok(e.IntoReply())
    ensures e.IntoReply().status == UNAUTHORIZED
    ensures e == UsernameTaken ==> HandleRejection(Custom(Idp(e))).status == BAD_REQUEST
  {
  }
}
