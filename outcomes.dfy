/** Option, Result and the Python exceptions the modelled code raises. */
module Outcomes {

  datatype Option<+T> = None | Some(value: T) {
    function GetOr(default: T): T {
      match this
      case Some(v) => v
      case None => default
    }
  }

  /** The exception a Python call ends with, by class; a KeyError is raised for a
      string key or for an integer one, a UnicodeDecodeError (a ValueError
      subclass) by `bytes.decode`, and a `binascii.Error` (another ValueError
      subclass) by `base64.b64decode`. An IndexError or a TypeError is kept by class
      only, without its message. */
  datatype Error =
    | ValueError(message: string)
    | KeyError(key: string)
    | IntKeyError(intKey: int)
    | AttributeError(name: string)
    | StopIteration
    | ValidationError(field: string)
    | UnicodeDecodeError
    | BinasciiError(reason: BinasciiReason)
    | IndexError
    | TypeError

  /** The two messages of `binascii.Error` that `a2b_base64` raises: "Incorrect
      padding", and "Invalid base64-encoded string: number of data characters (N)
      cannot be 1 more than a multiple of 4" with its count N. */
  datatype BinasciiReason = IncorrectPadding | OddDigitCount(digits: nat)

  datatype Result<+T> = Ok(value: T) | Err(error: Error) {
    predicate IsFailure() { Err? }
    function PropagateFailure<U>(): Result<U>
      requires Err?
    {
      Err(error)
    }
    function Extract(): T
      requires Ok?
    {
      value
    }
  }

  /** A loop that transforms each element in turn and stops at the first exception:
      the results in order, or the error of the first element that fails. */
  function MapResult<T, U>(f: T -> Result<U>, xs: seq<T>): Result<seq<U>>
    decreases |xs|
  {
    if xs == [] then Ok([])
    else
      var done :- MapResult(f, xs[..|xs| - 1]);
      var last :- f(xs[|xs| - 1]);
      Ok(done + [last])
  }

  /** One iteration of that loop. */
  lemma MapResultStep<T, U>(f: T -> Result<U>, xs: seq<T>, i: nat)
    requires i < |xs|
    ensures MapResult(f, xs[..i]).Err? ==> MapResult(f, xs[..i + 1]) == Err(MapResult(f, xs[..i]).error)
    ensures MapResult(f, xs[..i]).Ok? && f(xs[i]).Err? ==> MapResult(f, xs[..i + 1]) == Err(f(xs[i]).error)
    ensures MapResult(f, xs[..i]).Ok? && f(xs[i]).Ok? ==>
      MapResult(f, xs[..i + 1]) == Ok(MapResult(f, xs[..i]).value + [f(xs[i]).value])
  {
    var pre := xs[..i + 1];
    assert pre[..i] == xs[..i] && pre[i] == xs[i];
  }

  /** Once a prefix fails, the whole sequence fails with the same error. */
  lemma {:induction false} MapResultPrefixErr<T, U>(f: T -> Result<U>, xs: seq<T>, i: nat)
    requires i <= |xs| && MapResult(f, xs[..i]).Err?
    ensures MapResult(f, xs) == MapResult(f, xs[..i])
    decreases |xs| - i
  {
    if i == |xs| {
      assert xs[..i] == xs;
    } else {
      MapResultStep(f, xs, i);
      MapResultPrefixErr(f, xs, i + 1);
    }
  }

  /** The loop succeeds exactly when every element succeeds, and then it keeps the
      length and the order. */
  lemma {:induction false} MapResultOk<T, U>(f: T -> Result<U>, xs: seq<T>)
    ensures MapResult(f, xs).Ok? <==> forall k :: 0 <= k < |xs| ==> f(xs[k]).Ok?
    ensures MapResult(f, xs).Ok? ==>
      |MapResult(f, xs).value| == |xs| &&
      forall k :: 0 <= k < |xs| ==> MapResult(f, xs).value[k] == f(xs[k]).value
    decreases |xs|
  {
    if xs != [] {
      var pre := xs[..|xs| - 1];
      MapResultOk(f, pre);
      assert forall k :: 0 <= k < |pre| ==> pre[k] == xs[k];
    }
  }

  /** A failing loop reports the error of its first failing element. */
  lemma {:induction false} MapResultErr<T, U>(f: T -> Result<U>, xs: seq<T>)
    requires MapResult(f, xs).Err?
    ensures exists k ::
              && 0 <= k < |xs| && f(xs[k]).Err? && MapResult(f, xs).error == f(xs[k]).error
              && (forall j :: 0 <= j < k ==> f(xs[j]).Ok?)
    decreases |xs|
  {
    var pre := xs[..|xs| - 1];
    assert forall k :: 0 <= k < |pre| ==> pre[k] == xs[k];
    if MapResult(f, pre).Err? {
      MapResultErr(f, pre);
      var k :| 0 <= k < |pre| && f(pre[k]).Err? && MapResult(f, pre).error == f(pre[k]).error
        && (forall j :: 0 <= j < k ==> f(pre[j]).Ok?);
      assert f(xs[k]).Err?;
    } else {
      MapResultOk(f, pre);
      var k := |xs| - 1;
      assert f(xs[k]).Err? && forall j :: 0 <= j < k ==> f(xs[j]).Ok?;
    }
  }
}
