/**
 * The error taxonomy of the boocat package (boocat/errors/errors.go): four
 * sentinel errors, an `UnexpectedError` that wraps another error, and a
 * `ValidationFailedError` carrying the field-to-reason map.
 *
 * Go errors are values compared by identity; here each sentinel is its own
 * constructor, so two sentinels are equal only when they are the same one.
 * Errors made by `errors.New` or by `fmt.Errorf` with `%v` are `Plain`
 * (they wrap nothing); `fmt.Errorf` with `%w` is `Wrapping`.
 */
module BoocatErrors {
  import opened Results
  import opened GoStd

  datatype Error =
    | FormatNotFound
    | RecordNotFound
    | RecordHasID
    | RecordDoesntHaveID
    | Unexpected(err: Error)
    | ValidationFailed(failed: map<string, string>)
    | Plain(msg: string)
    | Wrapping(prefix: string, inner: Error)

  predicate IsSentinel(e: Error)
  {
    e.FormatNotFound? || e.RecordNotFound? || e.RecordHasID? || e.RecordDoesntHaveID?
  }

  /** NewUnexpectedError */
  function NewUnexpected(e: Error): (r: Error)
    ensures r.Unexpected? && Unwrap(r) == Some(e)
  {
    Unexpected(e)
  }

  /** The `Unwrap` method, for the error types that have one. */
  function Unwrap(e: Error): Option<Error>
  {
    match e
    case Unexpected(inner) => Some(inner)
    case Wrapping(_, inner) => Some(inner)
    case _ => None
  }

  /** The `Error()` method of every error value. */
  function Message(e: Error): string
  {
    match e
    case FormatNotFound => "format not found"
    case RecordNotFound => "record not found"
    case RecordHasID => "record has ID"
    case RecordDoesntHaveID => "record doesn't have ID"
    case Unexpected(inner) => "internal error: " + Message(inner)
    case ValidationFailed(_) => "validation failed"
    case Plain(msg) => msg
    case Wrapping(prefix, inner) => prefix + Message(inner)
  }

  /** errors.Is: `target` is `e` or is reached from `e` through `Unwrap`. */
  predicate Is(e: Error, target: Error)
  {
    e == target || (Unwrap(e).Some? && Is(Unwrap(e).value, target))
  }

  /** `fmt.Errorf(prefix + "%v\n", e)`: the message is kept, the error itself is not. */
  function Errorfv(prefix: string, e: Error): (r: Error)
    ensures Message(r) == prefix + Message(e) + "\n"
    ensures Unwrap(r) == None
  {
    Plain(prefix + Message(e) + "\n")
  }

  lemma SentinelMessages()
    ensures Message(FormatNotFound) == "format not found"
    ensures Message(RecordNotFound) == "record not found"
    ensures Message(RecordHasID) == "record has ID"
    ensures Message(RecordDoesntHaveID) == "record doesn't have ID"
  {
  }

  /** The four sentinels have four different messages. */
  lemma SentinelMessagesDistinct(a: Error, b: Error)
    requires IsSentinel(a) && IsSentinel(b) && a != b
    ensures Message(a) != Message(b)
  {
    assert Message(a)[..|Message(a)|] == Message(a);
    assert Message(b)[..|Message(b)|] == Message(b);
    assert "format not found"[0] != "record not found"[0];
    assert "format not found"[0] != "record has ID"[0];
    assert "format not found"[0] != "record doesn't have ID"[0];
    assert "record not found"[7] != "record has ID"[7];
    assert "record not found"[7] != "record doesn't have ID"[7];
    assert |"record has ID"| != |"record doesn't have ID"|;
  }

  /** Unwrapping what NewUnexpectedError made gives the original error back. */
  lemma UnwrapNewUnexpected(e: Error)
    ensures Unwrap(NewUnexpected(e)) == Some(e)
    ensures Is(NewUnexpected(e), e)
  {
  }

  /** The message of an UnexpectedError is "internal error: " and then the wrapped message. */
  lemma UnexpectedMessage(e: Error)
    ensures HasPrefix(Message(NewUnexpected(e)), "internal error: ")
    ensures Message(NewUnexpected(e))[|"internal error: "|..] == Message(e)
  {
  }

  /** A ValidationFailedError's message does not depend on the failures it carries. */
  lemma ValidationFailedMessage(f: map<string, string>, g: map<string, string>)
    ensures Message(ValidationFailed(f)) == Message(ValidationFailed(g)) == "validation failed"
    ensures ValidationFailed(f).failed == f
  {
  }

  /**
   * An error built with `%v` is never matched by errors.Is against a sentinel,
   * even when its message mentions one.
   */
  lemma ErrorfvHidesSentinel(prefix: string, e: Error, target: Error)
    requires IsSentinel(target)
    ensures !Is(Errorfv(prefix, e), target)
  {
  }

  /** errors.Is sees through any chain of UnexpectedError and %w wrappers. */
  lemma {:induction false} IsThroughWrappers(e: Error, target: Error, prefixes: seq<string>)
    requires Is(e, target)
    ensures Is(WrapAll(e, prefixes), target)
    decreases |prefixes|
  {
    if |prefixes| > 0 {
      IsThroughWrappers(e, target, prefixes[1..]);
    }
  }

  /**
   * An unwrap chain ends at its first sentinel, so an error is matched by
   * errors.Is against at most one sentinel: the order of the cases in a
   * switch over sentinels never matters.
   */
  lemma {:induction false} AtMostOneSentinel(e: Error, s: Error, t: Error)
    requires IsSentinel(s) && IsSentinel(t)
    ensures Is(e, s) && Is(e, t) ==> s == t
  {
    if Is(e, s) && Is(e, t) && e != s && e != t {
      AtMostOneSentinel(Unwrap(e).value, s, t);
    }
  }

  /** Wrap `e` once per prefix with `%w`; the first prefix is the outermost. */
  function WrapAll(e: Error, prefixes: seq<string>): Error
    decreases |prefixes|
  {
    if prefixes == [] then e else Wrapping(prefixes[0], WrapAll(e, prefixes[1..]))
  }
}
