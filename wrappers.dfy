/** Option and Result, with the members that let `:-` propagate a failure,
    and Collect, which runs a fallible step over a sequence front to back and
    stops at the first failure (the way a Python loop stops at an exception). */
module Wrappers {

  datatype Option<+T> = None | Some(value: T) {
    /** The value, or the given error when there is none. */
    function ToResult<E>(error: E): (r: Result<T, E>)
      ensures r.Ok? <==> Some?
      ensures Some? ==> r == Ok(value)
    {
      match this
      case Some(v) => Ok(v)
      case None => Err(error)
    }
  }

  datatype Result<+T, +E> = Ok(value: T) | Err(error: E) {
    predicate IsFailure() { Err? }

    function PropagateFailure<U>(): Result<U, E>
      requires Err?
    {
      Err(error)
    }

    function Extract(): T
      requires Ok?
    {
      value
    }
  }

  /** Applies `f` to every element in order and concatenates the results; the
      first element whose step fails decides the error. */
  function Collect<A, T, E>(f: A -> Result<seq<T>, E>, xs: seq<A>): Result<seq<T>, E>
    decreases |xs|
  {
    if xs == [] then Ok([])
    else
      match Collect(f, xs[..|xs| - 1])
      case Err(e) => Err(e)
      case Ok(done) =>
        match f(xs[|xs| - 1])
        case Err(e) => Err(e)
        case Ok(more) => Ok(done + more)
  }

  /** One more element: what a loop over `xs` does in its next iteration. */
  lemma CollectSnoc<A, T, E>(f: A -> Result<seq<T>, E>, xs: seq<A>, x: A)
    ensures Collect(f, xs + [x]) ==
      match Collect(f, xs)
      case Err(e) => Err(e)
      case Ok(done) =>
        match f(x)
        case Err(e) => Err(e)
        case Ok(more) => Ok(done + more)
  {
    assert (xs + [x])[..|xs + [x]| - 1] == xs;
  }

  /** The step a loop over `xs` takes at index `j`: success extends the result,
      and the first failure is the failure of the whole of `xs`. */
  lemma CollectPrefixStep<A, T, E>(f: A -> Result<seq<T>, E>, xs: seq<A>, j: nat)
    requires j < |xs| && Collect(f, xs[..j]).Ok?
    ensures f(xs[j]).Ok? ==> Collect(f, xs[..j + 1]) == Ok(Collect(f, xs[..j]).value + f(xs[j]).value)
    ensures f(xs[j]).Err? ==> Collect(f, xs) == Err(f(xs[j]).error)
  {
    assert xs[..j + 1] == xs[..j] + [xs[j]];
    CollectSnoc(f, xs[..j], xs[j]);
    if f(xs[j]).Err? {
      CollectErrSticks(f, xs[..j + 1], xs[j + 1..]);
      assert xs[..j + 1] + xs[j + 1..] == xs;
    }
  }

  /** Once a prefix has failed, no longer input succeeds, and the error stays the first one. */
  lemma {:induction false} CollectErrSticks<A, T, E>(f: A -> Result<seq<T>, E>, xs: seq<A>, ys: seq<A>)
    requires Collect(f, xs).Err?
    ensures Collect(f, xs + ys) == Collect(f, xs)
    decreases |ys|
  {
    if ys == [] {
      assert xs + ys == xs;
    } else {
      var zs := ys[..|ys| - 1];
      CollectErrSticks(f, xs, zs);
      assert xs + ys == (xs + zs) + [ys[|ys| - 1]];
      CollectSnoc(f, xs + zs, ys[|ys| - 1]);
    }
  }
}
