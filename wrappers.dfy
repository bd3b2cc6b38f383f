/** Option and Result values, used for the absent values and the raised
    exceptions of the explorer's Python code. */
module Wrappers {

  datatype Option<+T> = None | Some(value: T)

  datatype Result<+T, +E> = Ok(value: T) | Err(error: E)

  /** A loop that appends `f(x)` for each `x` of `xs` in order, where the first
      failing call raises its error out of the loop. */
  function CollectOk<A, B, E>(xs: seq<A>, f: A -> Result<B, E>): Result<seq<B>, E>
  {
    if xs == [] then Ok([])
    else
      match f(xs[0])
      case Err(e) => Err(e)
      case Ok(y) =>
        match CollectOk(xs[1..], f)
        case Err(e) => Err(e)
        case Ok(ys) => Ok([y] + ys)
  }

  /** The loop succeeds exactly when every call does, and then holds their
      results in order; a failure is the error of the first failing call. */
  lemma {:induction false} CollectOkShape<A, B, E>(xs: seq<A>, f: A -> Result<B, E>)
    ensures CollectOk(xs, f).Ok? <==> forall k :: 0 <= k < |xs| ==> f(xs[k]).Ok?
    ensures CollectOk(xs, f).Ok? ==>
              && |CollectOk(xs, f).value| == |xs|
              && forall k :: 0 <= k < |xs| ==> f(xs[k]) == Ok(CollectOk(xs, f).value[k])
    ensures CollectOk(xs, f).Err? ==>
              exists k :: && 0 <= k < |xs| && f(xs[k]) == Err(CollectOk(xs, f).error)
                          && forall j :: 0 <= j < k ==> f(xs[j]).Ok?
  {
    if xs != [] {
      var tail := xs[1..];
      CollectOkShape(tail, f);
      assert forall k :: 0 <= k < |tail| ==> tail[k] == xs[k + 1];
      var r := CollectOk(xs, f);
      if f(xs[0]).Ok? && CollectOk(tail, f).Ok? {
        var ys := [f(xs[0]).value] + CollectOk(tail, f).value;
        assert r == Ok(ys);
        forall k | 0 <= k < |xs| ensures f(xs[k]) == Ok(ys[k]) {
          if k > 0 {
            assert xs[k] == tail[k - 1];
          }
        }
      }
      if (forall k :: 0 <= k < |xs| ==> f(xs[k]).Ok?) {
        assert f(xs[0]).Ok?;
        assert forall k :: 0 <= k < |tail| ==> f(tail[k]).Ok?;
      }
      if r.Err? && f(xs[0]).Ok? {
        var k :| && 0 <= k < |tail| && f(tail[k]) == Err(r.error)
                 && forall j :: 0 <= j < k ==> f(tail[j]).Ok?;
        assert f(xs[k + 1]) == Err(r.error);
        forall j | 0 <= j < k + 1 ensures f(xs[j]).Ok? {
          if j > 0 {
            assert xs[j] == tail[j - 1];
          }
        }
      }
    }
  }

  /** One more successful call extends the loop's result by one element. */
  lemma {:induction false} CollectOkAppend<A, B, E>(xs: seq<A>, x: A, f: A -> Result<B, E>, ys: seq<B>, y: B)
    requires CollectOk(xs, f) == Ok(ys)
    requires f(x) == Ok(y)
    ensures CollectOk(xs + [x], f) == Ok(ys + [y])
  {
    if xs == [] {
      assert xs + [x] == [x] && [x][1..] == [];
      assert CollectOk([x][1..], f) == Ok([]);
      assert ys == [] && [y] + [] == ys + [y];
    } else {
      assert (xs + [x])[1..] == xs[1..] + [x];
      var first := f(xs[0]).value;
      var rest := CollectOk(xs[1..], f).value;
      CollectOkAppend(xs[1..], x, f, rest, y);
      assert [first] + (rest + [y]) == ys + [y];
    }
  }

  /** The loop's invariant step: the prefix one element longer. */
  lemma CollectOkPrefix<A, B, E>(xs: seq<A>, i: nat, f: A -> Result<B, E>, ys: seq<B>, y: B)
    requires i < |xs|
    requires CollectOk(xs[..i], f) == Ok(ys)
    requires f(xs[i]) == Ok(y)
    ensures CollectOk(xs[..i + 1], f) == Ok(ys + [y])
  {
    assert xs[..i + 1] == xs[..i] + [xs[i]];
    CollectOkAppend(xs[..i], xs[i], f, ys, y);
  }

}
