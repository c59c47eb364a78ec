/**
 * ToResponse: how a handler's Option or Result becomes either a reply or a
 * rejection. The reply of a payload is given by its ToReply implementation,
 * passed in as a function.
 */
module Protocol {
  import opened Wrappers
  import opened Http
  import opened Rejections

  /** `Option<T>::into_response`: a missing value is rejected as not found. */
  function OptionIntoResponse<T>(o: Option<T>, intoReply: T -> Reply): (r: Result<Reply, Rejection>)
    ensures r.Err? <==> o.None?
    ensures r.Err? ==> r.error == NotFound
    ensures o.Some? ==> r == Ok(intoReply(o.value))
  {
    match o
    case None => Err(NotFound)
    case Some(underlying) => Ok(intoReply(underlying))
  }

  /** `Result<T, E>::into_response`: both a value and an error are replied to; nothing is rejected. */
  function ResultIntoResponse<T, E>(x: Result<T, E>, okReply: T -> Reply, errReply: E -> Reply): (r: Result<Reply, Rejection>)
    ensures r.Ok?
    ensures x.Ok? ==> r.value == okReply(x.value)
    ensures x.Err? ==> r.value == errReply(x.error)
  {
    match x
    case Err(error) => Ok(errReply(error))
    case Ok(underlying) => Ok(okReply(underlying))
  }
}
