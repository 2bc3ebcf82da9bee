/**
 * The value types shared by the coordinator and the adapters: the error
 * behaviour, the cache status, the response records, the cache key and
 * the record that `swr` hands back to its caller.
 */
module SwrTypes {

  /** `null` of the source: a value that may be absent. */
  datatype Option<T> = None | Some(value: T)

  /** What to do when fetching fresh data throws. */
  datatype ErrorBehaviour = Throw | ServeStale

  /** Where the data handed back came from. */
  datatype DataStatus = Fresh | Cached | Stale

  /** A cache key: an ordered list of string segments. */
  type CacheKey = seq<string>

  /** `prefix` equals the leading segments of `key`, position by position. */
  predicate IsSegmentPrefix(prefix: CacheKey, key: CacheKey)
  {
    |prefix| <= |key| && key[..|prefix|] == prefix
  }

  /** The error value a fetch throws; it is carried through unchanged. */
  type FetchError = string

  /** The string literal that spells an error behaviour in the source. */
  function ErrorBehaviourLiteral(e: ErrorBehaviour): string
  {
    match e
    case Throw => "throw"
    case ServeStale => "serve-stale"
  }

  /** Reads a string as an error behaviour: only the two literals of the union are admitted. */
  function ParseErrorBehaviour(s: string): (r: Option<ErrorBehaviour>)
    ensures r.Some? <==> s == "throw" || s == "serve-stale"
    ensures r.Some? ==> ErrorBehaviourLiteral(r.value) == s
  {
    if s == "throw" then Some(Throw)
    else if s == "serve-stale" then Some(ServeStale)
    else None
  }

  /** Every error behaviour is one of the two literals, and the literals are distinct. */
  lemma ErrorBehaviourLiteralRoundTrip(e: ErrorBehaviour)
    ensures ParseErrorBehaviour(ErrorBehaviourLiteral(e)) == Some(e)
    ensures ErrorBehaviourLiteral(Throw) != ErrorBehaviourLiteral(ServeStale)
  {
  }

  /** The string literal that spells a status in the source. */
  function StatusLiteral(s: DataStatus): string
  {
    match s
    case Fresh => "fresh"
    case Cached => "cached"
    case Stale => "stale"
  }

  /** Reads a string as a status: only the three literals of the union are admitted. */
  function ParseStatus(s: string): (r: Option<DataStatus>)
    ensures r.Some? <==> s == "fresh" || s == "cached" || s == "stale"
    ensures r.Some? ==> StatusLiteral(r.value) == s
  {
    if s == "fresh" then Some(Fresh)
    else if s == "cached" then Some(Cached)
    else if s == "stale" then Some(Stale)
    else None
  }

  /** Every status is one of the three literals, and the literals are pairwise distinct. */
  lemma StatusLiteralRoundTrip(s: DataStatus)
    ensures ParseStatus(StatusLiteral(s)) == Some(s)
    ensures StatusLiteral(Fresh) != StatusLiteral(Cached)
    ensures StatusLiteral(Fresh) != StatusLiteral(Stale)
    ensures StatusLiteral(Cached) != StatusLiteral(Stale)
  {
  }

  /** What an adapter stores and returns: a timestamp and the data. */
  datatype Response<T> = Response(updatedAt: int, data: T)
  {
    /** The same response with a status attached. */
    function WithStatus(status: DataStatus): (r: ResponseWithStatus<T>)
      ensures r.WithoutStatus() == this
      ensures r.status == status
    {
      ResponseWithStatus(updatedAt, data, status)
    }
  }

  /** A response that also says where it came from. */
  datatype ResponseWithStatus<T> = ResponseWithStatus(updatedAt: int, data: T, status: DataStatus)
  {
    function WithoutStatus(): Response<T>
    {
      Response(updatedAt, data)
    }
  }

  /** How the `fresh` promise settles: with a (possibly absent) response, or rejected with the fetch error. */
  datatype Settled<T> = Resolved(value: Option<ResponseWithStatus<T>>) | Rejected(error: FetchError)

  /** The record `swr` returns; `freshResult` is the settled value of its `fresh` promise. */
  datatype SWRData<T> = SWRData(cached: Option<ResponseWithStatus<T>>, freshResult: Settled<T>, onError: ErrorBehaviour)

  /**
   * The conditional type of the fresh result: under `throw` it is always a
   * response; an absent result is admitted only under `serve-stale`.
   */
  predicate Handled<T>(onError: ErrorBehaviour, v: Option<ResponseWithStatus<T>>)
  {
    v.None? ==> onError == ServeStale
  }

  /** An `SWRData` value that inhabits its declared type. */
  predicate WellTyped<T>(d: SWRData<T>)
  {
    d.freshResult.Resolved? ==> Handled(d.onError, d.freshResult.value)
  }
}
