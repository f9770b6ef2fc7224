/** The errors the topology layer produces and inspects: `TopoError` codes,
    context errors, and the two ways Go code decorates an error
    (`mterrors.Wrap`, which keeps the chain `errors.Is` follows, and
    `fmt.Errorf` with `%v`, which does not). Message texts are not modelled. */
module TopoErrors {

  datatype Option<T> = None | Some(value: T)

  datatype Result<T> = Ok(value: T) | Err(error: Error)

  /** The error beside a result, as a Go function that only reports an error returns it. */
  function ErrorOf<T>(r: Result<T>): (e: Option<Error>)
    ensures e.None? <==> r.Ok?
    ensures r.Err? ==> e == Some(r.error)
  {
    if r.Ok? then None else Some(r.error)
  }

  /** The `ErrorCode` values of `TopoError` that the core uses. */
  datatype Code =
    | NoNode
    | NodeExists
    | NodeNotEmpty
    | BadVersion
    | NoUpdateNeeded
    | NoImplementation
    | PartialResult
    | ResourceExhausted
    | Interrupted
    | Timeout

  datatype Error =
    | Topo(code: Code)                   // &TopoError{Code: code}, whatever its message
    | ContextCanceled                    // context.Canceled
    | ContextDeadlineExceeded            // context.DeadlineExceeded
    | ConnectionClosed                   // memorytopo's ErrConnectionClosed
    | NotLocked                          // "node ... is not locked"
    | NotADirectory                      // INVALID_ARGUMENT from ListDir on a file
    | DecodeFailed                       // proto.Unmarshal failed
    | ShardChangeRefused                 // InitMultiPooler: existing record has another database/shard
    | Wrapped(cause: Error)              // mterrors.Wrap / fmt.Errorf("%w"): errors.Is sees the cause
    | Formatted(causes: seq<Error>)      // fmt.Errorf("%v"): the causes survive only as text
    | Opaque(id: nat)                    // any other error, e.g. one returned by a caller's callback

  /** errors.Is(e, &TopoError{Code: c}): a TopoError matches on its code alone,
      and the search follows wrapping but not formatting. */
  predicate Is(e: Error, c: Code)
  {
    match e
    case Topo(k) => k == c
    case Wrapped(cause) => Is(cause, c)
    case _ => false
  }

  /** Wrapping never hides a code from errors.Is, however deep. */
  lemma {:induction false} IsSeesThroughWrapping(e: Error, c: Code, depth: nat)
    ensures Is(WrapN(e, depth), c) <==> Is(e, c)
    decreases depth
  {
    if depth > 0 {
      IsSeesThroughWrapping(e, c, depth - 1);
    }
  }

  function WrapN(e: Error, depth: nat): Error
    decreases depth
  {
    if depth == 0 then e else Wrapped(WrapN(e, depth - 1))
  }
}
