/**
 * The two checks a parsed weight vector goes through before any metric is computed.
 */
module Validation {
  import opened Wrappers
  import opened Numeric

  datatype ValidationError =
    | CountMismatch   // fewer or more weights than selected stocks
    | SumNotOne       // the weights do not add up to exactly one

  /** The count check first, then the exact sum check; accepted weights are passed on unchanged. */
  function ValidateWeights(weights: seq<real>, selectedCount: nat): (r: Result<seq<real>, ValidationError>)
    ensures r.Success? <==> |weights| == selectedCount && Sum(weights) == 1.0
    ensures r.Success? ==> r.value == weights
    ensures |weights| != selectedCount ==> r == Failure(CountMismatch)
    ensures r.Failure? && r.error == SumNotOne ==> |weights| == selectedCount
  {
    if |weights| != selectedCount then Failure(CountMismatch)
    else if Sum(weights) != 1.0 then Failure(SumNotOne)
    else Success(weights)
  }

  /** Weights 0.5 and 0.4 for two stocks are rejected for their sum; 0.5 and 0.5 are accepted. */
  lemma HalfAndFortyPercentRejected()
    ensures ValidateWeights([0.5, 0.4], 2) == Failure(SumNotOne)
    ensures ValidateWeights([0.5, 0.5], 2) == Success([0.5, 0.5])
    ensures ValidateWeights([0.5, 0.5], 3) == Failure(CountMismatch)
  {
    assert Sum([0.5, 0.4]) == 0.9 by {
      assert [0.5, 0.4][1..] == [0.4];
      assert [0.4][1..] == [];
    }
    assert Sum([0.5, 0.5]) == 1.0 by {
      assert [0.5, 0.5][1..] == [0.5];
      assert [0.5][1..] == [];
    }
  }
}
