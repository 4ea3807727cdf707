/**
 * The error taxonomy of the server package (server/errors/errors.go): the same
 * four sentinels as the boocat package, an `InternalServerError` that carries
 * nothing, and a `ValidationFailedError` carrying the field-to-reason map.
 * Errors of other origin (the stores' own `errors.New`/`fmt.Errorf` values)
 * are `Plain` or `Wrapping`, as in BoocatErrors.
 */
module ServerErrors {
  import opened Results
  import BoocatErrors

  datatype Error =
    | FormatNotFound
    | RecordNotFound
    | RecordHasID
    | RecordDoesntHaveID
    | InternalServer
    | ValidationFailed(failed: map<string, string>)
    | Plain(msg: string)
    | Wrapping(prefix: string, inner: Error)

  predicate IsSentinel(e: Error)
  {
    e.FormatNotFound? || e.RecordNotFound? || e.RecordHasID? || e.RecordDoesntHaveID?
  }

  function Unwrap(e: Error): Option<Error>
  {
    if e.Wrapping? then Some(e.inner) else None
  }

  /** The `Error()` method of every error value. */
  function Message(e: Error): string
  {
    match e
    case FormatNotFound => "format not found"
    case RecordNotFound => "record not found"
    case RecordHasID => "record has ID"
    case RecordDoesntHaveID => "record doesn't have ID"
    case InternalServer => "internal server error"
    case ValidationFailed(_) => "validation failed"
    case Plain(msg) => msg
    case Wrapping(prefix, inner) => prefix + Message(inner)
  }

  /** errors.Is */
  predicate Is(e: Error, target: Error)
  {
    e == target || (Unwrap(e).Some? && Is(Unwrap(e).value, target))
  }

  /** An unwrap chain reaches at most one sentinel. */
  lemma {:induction false} AtMostOneSentinel(e: Error, s: Error, t: Error)
    requires IsSentinel(s) && IsSentinel(t)
    ensures Is(e, s) && Is(e, t) ==> s == t
  {
    if Is(e, s) && Is(e, t) && e != s && e != t {
      AtMostOneSentinel(Unwrap(e).value, s, t);
    }
  }

  /** The boocat sentinel that has the same meaning as a server sentinel. */
  function AsBoocat(e: Error): (r: BoocatErrors.Error)
    requires IsSentinel(e)
    ensures BoocatErrors.IsSentinel(r)
  {
    match e
    case FormatNotFound => BoocatErrors.FormatNotFound
    case RecordNotFound => BoocatErrors.RecordNotFound
    case RecordHasID => BoocatErrors.RecordHasID
    case RecordDoesntHaveID => BoocatErrors.RecordDoesntHaveID
  }

  /** The sentinel messages are the boocat package's, one for one. */
  lemma SentinelMessagesMatchBoocat(e: Error)
    requires IsSentinel(e)
    ensures Message(e) == BoocatErrors.Message(AsBoocat(e))
  {
  }

  /**
   * InternalServerError carries no data: every value of it is the same value,
   * with the message "internal server error".
   */
  lemma InternalServerCarriesNothing(e: Error, f: Error)
    requires e.InternalServer? && f.InternalServer?
    ensures e == f && Message(e) == "internal server error"
  {
  }

  /** ValidationFailedError keeps its map unchanged and its message is constant. */
  lemma ValidationFailedCarriesMap(failed: map<string, string>)
    ensures ValidationFailed(failed).failed == failed
    ensures Message(ValidationFailed(failed)) == "validation failed"
  {
  }
}
