/**
 * Growth of one unit invested: `(1 + r).cumprod()` and its last value.
 */
module Cumulative {

  /** `∏ (1 + r[i])` over the whole sequence. */
  function Growth(r: seq<real>): real
  {
    if r == [] then 1.0 else (1.0 + r[0]) * Growth(r[1..])
  }

  /** The running product, carrying the value reached so far. */
  function RunningProduct(acc: real, r: seq<real>): (c: seq<real>)
    ensures |c| == |r|
    decreases |r|
  {
    if r == [] then []
    else
      var next := acc * (1.0 + r[0]);
      [next] + RunningProduct(next, r[1..])
  }

  /** `(1 + r).cumprod()`: each value is the product of `1 + r` over the returns up to that day. */
  function CumProd(r: seq<real>): (c: seq<real>)
    ensures |c| == |r|
    ensures forall t :: 0 <= t < |r| ==> c[t] == Growth(r[..t + 1])
  {
    var c := RunningProduct(1.0, r);
    assert forall t :: 0 <= t < |r| ==> c[t] == Growth(r[..t + 1]) by {
      forall t | 0 <= t < |r|
        ensures c[t] == Growth(r[..t + 1])
      {
        RunningProductIsGrowth(1.0, r, t);
      }
    }
    c
  }

  lemma {:induction false} RunningProductStep(acc: real, r: seq<real>, t: nat)
    requires 0 < t < |r|
    ensures RunningProduct(acc, r)[t] == RunningProduct(acc, r)[t - 1] * (1.0 + r[t])
    decreases |r|
  {
    var next := acc * (1.0 + r[0]);
    if t > 1 {
      RunningProductStep(next, r[1..], t - 1);
    }
  }

  /** `cum[0] = 1 + r[0]` and `cum[t] = cum[t - 1] · (1 + r[t])`. */
  lemma CumProdRecurrence(r: seq<real>)
    ensures |CumProd(r)| == |r|
    ensures |r| > 0 ==> CumProd(r)[0] == 1.0 + r[0]
    ensures forall t :: 0 < t < |r| ==> CumProd(r)[t] == CumProd(r)[t - 1] * (1.0 + r[t])
  {
    forall t | 0 < t < |r|
      ensures CumProd(r)[t] == CumProd(r)[t - 1] * (1.0 + r[t])
    {
      RunningProductStep(1.0, r, t);
    }
  }

  lemma {:induction false} RunningProductIsGrowth(acc: real, r: seq<real>, t: nat)
    requires t < |r|
    ensures RunningProduct(acc, r)[t] == acc * Growth(r[..t + 1])
    decreases |r|
  {
    var next := acc * (1.0 + r[0]);
    assert r[..t + 1][1..] == r[1..][..t];
    if t == 0 {
      assert r[..1][1..] == [];
    } else {
      RunningProductIsGrowth(next, r[1..], t - 1);
    }
  }

  /** `(1 + r).cumprod().iloc[-1] - 1`: the total return over the whole window, `∏ (1 + r) - 1`. */
  function TotalReturn(r: seq<real>): (total: real)
    requires |r| > 0
    ensures total == Growth(r) - 1.0
  {
    assert r[..|r|] == r;
    CumProd(r)[|r| - 1] - 1.0
  }
}
