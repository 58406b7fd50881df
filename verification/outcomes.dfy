/** The `assert`s of the feature routines, as an outcome instead of a crash. */
module Outcomes {

  /** Which assertion of the feature engine failed. */
  datatype Violation =
    | MissingSubPattern    // a split half is not in the pattern table
    | OccurrenceMismatch   // an occurrence does not start with the pattern's first token
    | WindowNotAligned     // a context window does not end on sentence ends
    | NegativeDiff         // a context count fell below the pattern's own count

  datatype Result<+T> = Ok(value: T) | Abort(reason: Violation) {

    predicate IsFailure() {
      Abort?
    }

    function PropagateFailure<U>(): Result<U>
      requires Abort?
    {
      Abort(reason)
    }

    function Extract(): T
      requires Ok?
    {
      value
    }
  }

  /** The outcomes of a run of independent steps, in order: all values when
      every step succeeded, else the violation of the first step that failed. */
  function Collect<T>(rs: seq<Result<T>>): (r: Result<seq<T>>)
    ensures r.Ok? <==> forall i :: 0 <= i < |rs| ==> rs[i].Ok?
    ensures r.Ok? ==> |r.value| == |rs| && forall i :: 0 <= i < |rs| ==> r.value[i] == rs[i].value
    ensures r.Abort? ==> exists i :: 0 <= i < |rs| && rs[i] == Abort(r.reason)
                                     && forall j :: 0 <= j < i ==> rs[j].Ok?
  {
    if |rs| == 0 then Ok([])
    else if rs[0].Abort? then Abort(rs[0].reason)
    else
      var rest := Collect(rs[1..]);
      assert forall i :: 1 <= i < |rs| ==> rs[i] == rs[1..][i - 1];
      if rest.Abort? then Abort(rest.reason)
      else Ok([rs[0].value] + rest.value)
  }
}
