/** Outcomes of the train-notification analysis: the Python exceptions the
    analysis can raise, and Option/Result wrappers for values that may be
    missing or may fail to compute. */
module Results {

  /** The exceptions the analysis raises on malformed input. */
  datatype Error =
    | ValueError     // int() applied to text that is not an integer literal
    | TypeError      // timedelta() given more positional arguments than it accepts
    | OverflowError  // a timedelta outside the representable range

  datatype Option<+T> = None | Some(value: T)

  datatype Result<+T> = Ok(value: T) | Err(error: Error) {
    predicate IsFailure() { Err? }

    function PropagateFailure<U>(): Result<U>
      requires Err?
    {
      Err(error)
    }

    function Extract(): T
      requires Ok?
    {
      value
    }
  }

  /** Applies `f` to every element, in order; the first failure is the
      outcome (as Python's eager `map`, a list comprehension or a loop of
      calls raises at the first element that fails). */
  function MapResult<T>(xs: seq<string>, f: string -> Result<T>): (r: Result<seq<T>>)
    ensures r.Ok? ==> |r.value| == |xs| && forall i :: 0 <= i < |xs| ==> f(xs[i]) == Ok(r.value[i])
    ensures r.Err? ==>
      exists k :: 0 <= k < |xs| && f(xs[k]) == Err(r.error) &&
        forall j :: 0 <= j < k ==> f(xs[j]).Ok?
  {
    if |xs| == 0 then Ok([])
    else
      match f(xs[0])
      case Err(e) => Err(e)
      case Ok(v) =>
        match MapResult(xs[1..], f)
        case Err(e) => Err(e)
        case Ok(vs) => Ok([v] + vs)
  }

  /** The outcome is the error of the first element that fails. */
  lemma MapResultFirstFailure<T>(xs: seq<string>, f: string -> Result<T>, k: nat)
    requires k < |xs| && f(xs[k]).Err?
    requires forall j :: 0 <= j < k ==> f(xs[j]).Ok?
    ensures MapResult(xs, f) == Err(f(xs[k]).error)
  {
    var r := MapResult(xs, f);
    if r.Err? {
      var k' :| 0 <= k' < |xs| && f(xs[k']) == Err(r.error) && forall j :: 0 <= j < k' ==> f(xs[j]).Ok?;
      assert k' == k;
    }
  }

  /** When every element converts, the outcome is the list of their values. */
  lemma MapResultAllOk<T>(xs: seq<string>, f: string -> Result<T>, values: seq<T>)
    requires |values| == |xs|
    requires forall j :: 0 <= j < |xs| ==> f(xs[j]) == Ok(values[j])
    ensures MapResult(xs, f) == Ok(values)
  {
    var r := MapResult(xs, f);
    if r.Ok? {
      assert forall j :: 0 <= j < |xs| ==> Ok(r.value[j]) == Ok(values[j]);
      assert forall j :: 0 <= j < |xs| ==> r.value[j] == values[j];
      assert r.value == values;
    }
  }

  /** Converting one more element extends the list of values. */
  lemma {:induction false} MapResultSnoc<T>(xs: seq<string>, f: string -> Result<T>, y: string)
    requires MapResult(xs, f).Ok? && f(y).Ok?
    ensures MapResult(xs + [y], f) == Ok(MapResult(xs, f).value + [f(y).value])
    decreases |xs|
  {
    if |xs| == 0 {
      assert xs + [y] == [y] && [y][0] == y && [y][1..] == [];
      assert MapResult([y][1..], f) == Ok([]);
      assert MapResult(xs, f).value + [f(y).value] == [f(y).value] + [];
    } else {
      var v := f(xs[0]).value;
      var rest := MapResult(xs[1..], f).value;
      assert MapResult(xs, f).value == [v] + rest;
      assert (xs + [y])[0] == xs[0];
      assert (xs + [y])[1..] == xs[1..] + [y];
      MapResultSnoc(xs[1..], f, y);
      assert [v] + (rest + [f(y).value]) == ([v] + rest) + [f(y).value];
    }
  }

  /** The prefix of length i + 1 converts when the prefix of length i does
      and element i does. */
  lemma MapResultExtend<T>(xs: seq<string>, f: string -> Result<T>, i: nat)
    requires i < |xs| && MapResult(xs[..i], f).Ok? && f(xs[i]).Ok?
    ensures MapResult(xs[..i + 1], f) == Ok(MapResult(xs[..i], f).value + [f(xs[i]).value])
  {
    assert xs[..i + 1] == xs[..i] + [xs[i]];
    MapResultSnoc(xs[..i], f, xs[i]);
  }

  /** When the prefix of length i converts and element i fails, the whole
      conversion fails with element i's exception. */
  lemma MapResultStopsAt<T>(xs: seq<string>, f: string -> Result<T>, i: nat)
    requires i < |xs| && MapResult(xs[..i], f).Ok? && f(xs[i]).Err?
    ensures MapResult(xs, f) == Err(f(xs[i]).error)
  {
    var prefix := xs[..i];
    assert forall j :: 0 <= j < i ==> prefix[j] == xs[j];
    MapResultFirstFailure(xs, f, i);
  }
}
