/** Option and Result, the two failure-carrying shapes used throughout the model.
    A Python `None` becomes `None`; a raised exception becomes `Failure(message)`. */
module Wrappers {

  datatype Option<+T> = None | Some(value: T) {
    function GetOr(default: T): T
    {
      match this
      case Some(v) => v
      case None => default
    }
  }

  datatype Result<+T> = Success(value: T) | Failure(error: string)

  /** The present values of `xs`, in order: a loop that appends only when it has a value. */
  function Somes<T>(xs: seq<Option<T>>): (r: seq<T>)
    ensures |r| <= |xs|
  {
    if xs == [] then [] else Somes(xs[..|xs| - 1]) + (if xs[|xs| - 1].Some? then [xs[|xs| - 1].value] else [])
  }

  /** `Somes` keeps exactly the present values. */
  lemma {:induction false} SomesSpec<T>(xs: seq<Option<T>>)
    ensures forall y :: y in Somes(xs) <==> Some(y) in xs
  {
    if xs != [] {
      var init := xs[..|xs| - 1];
      SomesSpec(init);
      assert xs == init + [xs[|xs| - 1]];
    }
  }
}
