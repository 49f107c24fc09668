/** Failure-compatible wrappers for the generator.

The generator signals failure by raising Python exceptions. Each exception it can
raise is a constructor of `PyError`, and every operation that can raise returns a
`Result`, so that `:-` propagates the first failure exactly as the exception would.
 */
module Results {

  /** An optional value: Python's `None` versus a present value. */
  datatype Option<+T> = None | Some(value: T)

  /** The exceptions the generator can raise, by cause. */
  datatype PyError =
    | UnsupportedRef(ref: string)   // a `$ref` that does not start with `#/` (ValueError)
    | MissingKey(key: string)       // a `$ref` token that names no member (KeyError)
    | WrongType(what: string)       // a value of the wrong JSON type (TypeError / AttributeError)
    | EmptyIndex                    // indexing the first character of an empty string (IndexError)
    | RecursionLimit                // nesting deeper than the fuel allows (RecursionError)

  datatype Result<+T> = Ok(value: T) | Err(error: PyError) {

    predicate IsFailure() {
      Err?
    }

    function PropagateFailure<U>(): Result<U>
      requires Err?
    {
      Err(error)
    }

    function Extract(): T
      requires Ok?
    {
      value
    }
  }

  /** A list comprehension whose element function may raise: the results in order, or
      the failure of the first element that raises. */
  function MapResult<A, B>(f: A -> Result<B>, xs: seq<A>): (r: Result<seq<B>>)
    ensures r.Ok? <==> forall i :: 0 <= i < |xs| ==> f(xs[i]).Ok?
    ensures r.Ok? ==> |r.value| == |xs| && forall i :: 0 <= i < |xs| ==> f(xs[i]) == Ok(r.value[i])
    ensures r.Err? ==> exists i :: 0 <= i < |xs| && f(xs[i]) == Err(r.error) && forall j :: 0 <= j < i ==> f(xs[j]).Ok?
    decreases |xs|
  {
    if |xs| == 0 then Ok([])
    else
      var y :- f(xs[0]);
      var ys :- MapResult(f, xs[1..]);
      assert forall i :: 1 <= i < |xs| ==> xs[i] == xs[1..][i - 1];
      Ok([y] + ys)
  }

  /** The first element is mapped before the rest. */
  lemma MapResultCons<A, B>(f: A -> Result<B>, xs: seq<A>)
    requires |xs| > 0
    ensures MapResult(f, xs) ==
      if f(xs[0]).Err? then Err(f(xs[0]).error)
      else if MapResult(f, xs[1..]).Err? then Err(MapResult(f, xs[1..]).error)
      else Ok([f(xs[0]).value] + MapResult(f, xs[1..]).value)
  {
  }
}
