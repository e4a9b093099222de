/** The error-or-value outcome shared by both lexers and the parser (Rust's `Result`). */
module Results {

  datatype Result<+T, +E> = Ok(value: T) | Err(error: E)

  /** `ts` followed by the tokens of `r`, or the error of `r`. */
  function Prepend<T, E>(ts: seq<T>, r: Result<seq<T>, E>): Result<seq<T>, E>
  {
    match r
    case Ok(us) => Ok(ts + us)
    case Err(e) => Err(e)
  }

  /** The concatenation of two sequence outcomes; the first error wins. */
  function Join<T, E>(a: Result<seq<T>, E>, b: Result<seq<T>, E>): Result<seq<T>, E>
  {
    match a
    case Ok(ts) => Prepend(ts, b)
    case Err(e) => Err(e)
  }

  lemma PrependEmpty<T, E>(r: Result<seq<T>, E>)
    ensures Prepend([], r) == r
  {
    if r.Ok? { assert [] + r.value == r.value; }
  }

  lemma PrependAssoc<T, E>(ts: seq<T>, us: seq<T>, r: Result<seq<T>, E>)
    ensures Prepend(ts, Prepend(us, r)) == Prepend(ts + us, r)
  {
    if r.Ok? { assert ts + (us + r.value) == (ts + us) + r.value; }
  }

  lemma JoinPrepend<T, E>(ts: seq<T>, r: Result<seq<T>, E>, q: Result<seq<T>, E>)
    ensures Join(Prepend(ts, r), q) == Prepend(ts, Join(r, q))
  {
    if r.Ok? && q.Ok? { assert ts + r.value + q.value == ts + (r.value + q.value); }
  }
}
