/** Values shared by every part of the request-to-query compiler. */
module Common {

  datatype Option<+T> = None | Some(value: T)

  /** The ways one request can fail; each is an exception thrown by the PHP class. */
  datatype Error =
    | MissingProjection      // the model has no getDatatablesData (BadMethodCallException)
    | MissingSearchScope     // a global search on a model without scopeSearch (BadMethodCallException)
    | BadDate(text: string)  // Carbon::createFromFormat rejected one side of a date range

  datatype Result<+T> = Ok(value: T) | Err(error: Error)

  /**
   * The indices of the elements of `xs` that `keep` holds of, in increasing
   * order: what remains of a sequence once a `foreach` skips the other elements.
   */
  function Selected<T>(xs: seq<T>, keep: T -> bool): (idx: seq<nat>)
    ensures forall k :: 0 <= k < |idx| ==> idx[k] < |xs| && keep(xs[idx[k]])
    ensures forall k, l :: 0 <= k < l < |idx| ==> idx[k] < idx[l]
    ensures forall i :: 0 <= i < |xs| && keep(xs[i]) ==> i in idx
  {
    if xs == [] then []
    else
      var init := xs[..|xs| - 1];
      Selected(init, keep) + (if keep(xs[|xs| - 1]) then [|xs| - 1] else [])
  }
}
