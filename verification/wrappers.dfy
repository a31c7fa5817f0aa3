/** Failure-carrying values shared by the modules of the model, and one
    traversal over them: applying a fallible step to every element of a
    sequence, in order, stopping at the first failure. */
module Wrappers {

  datatype Option<+T> = None | Some(value: T)

  datatype Result<+T, +E> = Ok(value: T) | Err(error: E)

  /** Applies `f` to each element of `xs` from first to last. The result is
      the sequence of successes when every step succeeds, and otherwise the
      error of the FIRST step that fails (later elements are never looked at,
      just as a Java loop stops at the first exception). */
  function MapResults<A, B, E>(f: A -> Result<B, E>, xs: seq<A>): (r: Result<seq<B>, E>)
    ensures r.Ok? <==> forall i :: 0 <= i < |xs| ==> f(xs[i]).Ok?
    ensures r.Ok? ==> |r.value| == |xs|
    ensures r.Ok? ==> forall i :: 0 <= i < |xs| ==> f(xs[i]) == Ok(r.value[i])
    ensures r.Err? ==> exists i :: 0 <= i < |xs| && f(xs[i]) == Err(r.error)
                                    && forall j :: 0 <= j < i ==> f(xs[j]).Ok?
  {
    if |xs| == 0 then Ok([])
    else
      match f(xs[0])
      case Err(e) => Err(e)
      case Ok(y) =>
        match MapResults(f, xs[1..])
        case Err(e) =>
          assert exists i :: 0 <= i < |xs| && f(xs[i]) == Err(e)
                             && forall j :: 0 <= j < i ==> f(xs[j]).Ok? by {
            var k :| 0 <= k < |xs[1..]| && f(xs[1..][k]) == Err(e)
                     && forall j :: 0 <= j < k ==> f(xs[1..][j]).Ok?;
            assert forall j :: 0 < j < k + 1 ==> xs[j] == xs[1..][j - 1];
          }
          Err(e)
        case Ok(ys) =>
          assert forall i :: 0 < i < |xs| ==> xs[i] == xs[1..][i - 1];
          Ok([y] + ys)
  }
}
