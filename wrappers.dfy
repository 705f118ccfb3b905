/** Option and Result, and how a failing lookup inside a loop aborts the loop. */
module Wrappers {

  datatype Option<+T> = None | Some(value: T)

  /** The outcome of a rendering step. The only failure the renderer can raise
      is a lookup of a key that the specification-URL table does not hold
      (Python's KeyError); `key` is the key that was looked up. */
  datatype Result<+T> = Ok(value: T) | Err(key: string) {

    predicate IsFailure() {
      Err?
    }

    function PropagateFailure<U>(): Result<U>
      requires Err?
    {
      Err(key)
    }

    function Extract(): T
      requires Ok?
    {
      value
    }
  }

  /** Runs a sequence of steps in order: all values when every step succeeds,
      otherwise the failure of the first step that failed (the steps after it
      never run, as with an exception raised inside a Python loop). */
  function AllOk<T>(rs: seq<Result<T>>): (r: Result<seq<T>>)
    ensures r.Ok? <==> forall i :: 0 <= i < |rs| ==> rs[i].Ok?
    ensures r.Ok? ==> |r.value| == |rs| && forall i :: 0 <= i < |rs| ==> r.value[i] == rs[i].value
    ensures r.Err? ==> exists i :: 0 <= i < |rs| && rs[i] == Err(r.key) && forall j :: 0 <= j < i ==> rs[j].Ok?
  {
    if rs == [] then Ok([])
    else
      match rs[0]
      case Err(k) => Err(k)
      case Ok(v) =>
        match AllOk(rs[1..])
        case Err(k) => Err(k)
        case Ok(vs) => Ok([v] + vs)
  }

  /** A run whose every step succeeded gives the steps' values in order. */
  lemma AllOkValues<T>(rs: seq<Result<T>>, vs: seq<T>)
    requires |vs| == |rs|
    requires forall k :: 0 <= k < |rs| ==> rs[k] == Ok(vs[k])
    ensures AllOk(rs) == Ok(vs)
  {
    assert forall k :: 0 <= k < |rs| ==> rs[k].Ok?;
    assert AllOk(rs).value == vs;
  }

  /** The failure of a run of steps is that of its first failing step. */
  lemma AllOkFirstErr<T>(rs: seq<Result<T>>, i: nat)
    requires i < |rs| && rs[i].Err?
    requires forall k :: 0 <= k < i ==> rs[k].Ok?
    ensures AllOk(rs) == Err(rs[i].key)
  {
    var r := AllOk(rs);
    var j :| 0 <= j < |rs| && rs[j] == Err(r.key) && forall k :: 0 <= k < j ==> rs[k].Ok?;
    assert j == i;
  }
}
