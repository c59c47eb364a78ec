/**
 * The `Unit` extension: `unit()` erases the payload of an Option or a
 * Result and keeps everything else.
 */
module Extensions {
  import opened Wrappers

  /** `Option<T>::unit`: `Some(_)` becomes `Some(())`, `None` stays `None`. */
  function OptionUnit<T>(o: Option<T>): (r: Option<()>)
    ensures r.Some? <==> o.Some?
  {
    match o
    case None => None
    case Some(_) => Some(())
  }

  /** `Result<T, E>::unit`: `Ok(_)` becomes `Ok(())`, an error is kept as it is. */
  function ResultUnit<T, E>(x: Result<T, E>): (r: Result<(), E>)
    ensures r.Ok? <==> x.Ok?
    ensures x.Err? ==> r.error == x.error
  {
    match x
    case Ok(_) => Ok(())
    case Err(e) => Err(e)
  }

  /** Erasing twice is erasing once. */
  lemma OptionUnitIdempotent<T>(o: Option<T>)
    ensures OptionUnit(OptionUnit(o)) == OptionUnit(o)
  {
  }

  lemma ResultUnitIdempotent<T, E>(x: Result<T, E>)
    ensures ResultUnit(ResultUnit(x)) == ResultUnit(x)
  {
  }

  /** Two results with the same variant and the same error erase to the same value, whatever their payloads. */
  lemma ResultUnitForgetsPayload<T, E>(x: Result<T, E>, y: Result<T, E>)
    ensures ResultUnit(x) == ResultUnit(y) <==> (x.Ok? && y.Ok?) || (x.Err? && y.Err? && x.error == y.error)
  {
  }
}
