/**
 * Optional values and success-or-error outcomes shared by every module of the
 * model. Nullable results of the original code become `Option`, thrown errors
 * and rejected promises become the `Failure` branch of a `Result`.
 */
module Results {

  datatype Option<+T> = None | Some(value: T)
  {
    predicate IsSome() { Some? }
  }

  datatype Result<+R, +E> = Success(value: R) | Failure(error: E)
  {
    predicate IsFailure() { Failure? }
  }
}
