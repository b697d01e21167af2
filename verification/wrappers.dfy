/** Option and Result values shared by every module of the model. */
module Wrappers {

  /** An optional value; `None` stands for a JavaScript `undefined` field. */
  datatype Option<+T> = None | Some(value: T) {

    /** The value, or `default` when absent (a destructuring default). */
    function GetOr(default: T): T {
      match this
      case Some(v) => v
      case None => default
    }
  }

  /** A value, or the message of the `Error` that was thrown instead. */
  datatype Result<+T, +E> = Ok(value: T) | Err(error: E)

  /** The values of a list of results taken in order, or the first error among them. */
  function AllOk<T, E>(rs: seq<Result<T, E>>): (r: Result<seq<T>, E>)
    ensures r.Ok? <==> forall i :: 0 <= i < |rs| ==> rs[i].Ok?
    ensures r.Ok? ==> |r.value| == |rs| && forall i :: 0 <= i < |rs| ==> r.value[i] == rs[i].value
    ensures r.Err? ==> exists i :: 0 <= i < |rs| && rs[i] == Err(r.error) && forall j :: 0 <= j < i ==> rs[j].Ok?
    decreases |rs|
  {
    if rs == [] then Ok([])
    else
      match rs[0]
      case Err(e) => Err(e)
      case Ok(x) =>
        match AllOk(rs[1..])
        case Ok(xs) => Ok([x] + xs)
        case Err(e) => Err(e)
  }
}
