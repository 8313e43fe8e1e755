/** Swift's `Optional` and `Result` as used by the app, together with the two
    helpers the app adds to `Result` (Shared/ResultExtensions.swift). */
module Results {

  datatype Option<+T> = None | Some(value: T)

  /** The error side of every `Result` in the app. Swift's `Error` is an
      open protocol; the model only distinguishes where an error came from. */
  datatype Error =
    | TransportError(message: string)
    | DecodeError(message: string)
    | FileError(path: string)

  datatype Result<+R, +E> = Success(value: R) | Failure(error: E)

  /** `Result.map`: transforms the success value, passes a failure through. */
  function Map<R, E, U>(r: Result<R, E>, f: R -> U): (m: Result<U, E>)
    ensures m.Success? <==> r.Success?
    ensures r.Success? ==> m.value == f(r.value)
    ensures r.Failure? ==> m.error == r.error
  {
    match r
    case Success(v) => Success(f(v))
    case Failure(e) => Failure(e)
  }

  /** `Result.flatMap`: chains a fallible step after a success. */
  function FlatMap<R, E, U>(r: Result<R, E>, f: R -> Result<U, E>): (m: Result<U, E>)
    ensures r.Success? ==> m == f(r.value)
    ensures r.Failure? ==> m == Failure(r.error)
  {
    match r
    case Success(v) => f(v)
    case Failure(e) => Failure(e)
  }

  /** `getOrDefault`: the success value, or `def` on failure. */
  function GetOrDefault<R, E>(r: Result<R, E>, def: R): (v: R)
    ensures r.Success? ==> v == r.value
    ensures r.Failure? ==> v == def
  {
    match r
    case Success(x) => x
    case Failure(_) => def
  }

  /** `fold(success, failure)`: note the order of the two continuations; the
      FIRST one handles the success case. */
  function Fold<R, E, U>(r: Result<R, E>, success: R -> U, failure: E -> U): (u: U)
    ensures r.Success? ==> u == success(r.value)
    ensures r.Failure? ==> u == failure(r.error)
  {
    match r
    case Success(v) => success(v)
    case Failure(e) => failure(e)
  }

  /** `getOrDefault` is the fold that keeps the value and replaces any error
      with the default. */
  lemma GetOrDefaultIsFold<R, E>(r: Result<R, E>, def: R)
    ensures GetOrDefault(r, def) == Fold(r, (x: R) => x, (_: E) => def)
  {
  }

  /** Folding with the two constructors rebuilds the same result: `fold`
      never swaps the success and failure cases. */
  lemma FoldWithConstructorsIsIdentity<R, E>(r: Result<R, E>)
    ensures Fold(r, (x: R) => Success(x), (e: E) => Failure(e)) == r
  {
  }
}
