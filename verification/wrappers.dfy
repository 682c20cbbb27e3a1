/** Failure-carrying wrappers shared by every module of the model.

    The modelled code signals errors by throwing; here an operation that can
    throw returns a `Result`, and `Failure` names the kind of exception. */
module Wrappers {

  /** An optional value: Kotlin's nullable `T?`. */
  datatype Option<+T> = None | Some(value: T)

  /** The kind of exception the source would throw. */
  datatype Failure =
    | IndexOutOfBounds      // IndexOutOfBoundsException / ArrayIndexOutOfBoundsException
    | NoSuchSlot            // AssertionError "No such value argument slot"
    | Unsupported           // UnsupportedOperationException
    | ClassCast             // a failing `as` cast
    | IllegalState          // `error(...)` / IllegalStateException
    | NullDereference       // a failing `!!`
    | NotImplemented        // `TODO(...)`
    | NegativeArraySize     // NegativeArraySizeException from `arrayOfNulls`
    | StackOverflow         // unbounded recursion; reported when a fuel bound runs out

  /** Either a value or the exception that replaced it. */
  datatype Result<+T> = Ok(value: T) | Fail(failure: Failure) {
    predicate IsFailure() {
      Fail?
    }

    function PropagateFailure<U>(): Result<U>
      requires Fail?
    {
      Fail(failure)
    }

    function Extract(): T
      requires Ok?
    {
      value
    }
  }

  /** `map`/`mapTo` with a transform that can throw: the elements are
      transformed in order and the first failure ends the whole. */
  function MapAll<A, B>(xs: seq<A>, f: A -> Result<B>): (r: Result<seq<B>>)
    ensures r.Ok? <==> forall i | 0 <= i < |xs| :: f(xs[i]).Ok?
    ensures r.Ok? ==> |r.value| == |xs| && forall i | 0 <= i < |xs| :: r.value[i] == f(xs[i]).value
    ensures r.Fail? ==> exists i | 0 <= i < |xs| :: f(xs[i]) == Fail(r.failure) &&
                                                   forall j | 0 <= j < i :: f(xs[j]).Ok?
  {
    if |xs| == 0 then Ok([])
    else
      var head :- f(xs[0]);
      var tail :- (assert forall i | 1 <= i < |xs| :: xs[1..][i - 1] == xs[i];
                   MapAll(xs[1..], f));
      Ok([head] + tail)
  }
}
