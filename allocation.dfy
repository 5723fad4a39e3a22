/**
 * Sector-wise allocation: for each selected sector, the summed weight of the selected stocks it
 * lists.
 */
module Allocation {
  import opened Numeric
  import opened Frames
  import opened Universe

  /** The weights of the stocks among `stocks` that `members` lists, summed in stock order. */
  function SectorWeight(members: seq<Symbol>, stocks: seq<Symbol>, weights: seq<real>): real
    requires |stocks| <= |weights|
  {
    if stocks == [] then 0.0
    else
      var n := |stocks| - 1;
      SectorWeight(members, stocks[..n], weights) + (if stocks[n] in members then weights[n] else 0.0)
  }

  /** `sector_allocation`: filled one selected sector at a time, each entry a running sum. */
  method SectorAllocation(dict: StockMap, sectors: seq<Sector>, stocks: seq<Symbol>, weights: seq<real>)
    returns (allocation: map<Sector, real>)
    requires Known(dict, sectors) && |stocks| <= |weights|
    ensures allocation.Keys == set s | s in sectors
    ensures forall s :: s in allocation ==> s in dict && allocation[s] == SectorWeight(dict[s], stocks, weights)
  {
    allocation := map[];
    for i := 0 to |sectors|
      invariant allocation.Keys == set s | s in sectors[..i]
      invariant forall s :: s in allocation ==> s in dict && allocation[s] == SectorWeight(dict[s], stocks, weights)
    {
      var sector := sectors[i];
      var members := dict[sector];
      var total := 0.0;
      for k := 0 to |stocks|
        invariant total == SectorWeight(members, stocks[..k], weights)
      {
        assert stocks[..k + 1][..k] == stocks[..k];
        if stocks[k] in members {
          total := total + weights[k];
        }
      }
      assert stocks[..|stocks|] == stocks;
      assert sectors[..i + 1] == sectors[..i] + [sector];
      allocation := allocation[sector := total];
    }
    assert sectors[..|sectors|] == sectors;
  }

  /** How many of the sectors list the symbol. */
  function Hits(dict: StockMap, sectors: seq<Sector>, x: Symbol): nat
    requires Known(dict, sectors)
  {
    if sectors == [] then 0 else (if x in dict[sectors[0]] then 1 else 0) + Hits(dict, sectors[1..], x)
  }

  /** The allocations of the sectors, added up sector by sector. */
  function TotalAllocation(dict: StockMap, sectors: seq<Sector>, stocks: seq<Symbol>, weights: seq<real>): real
    requires Known(dict, sectors) && |stocks| <= |weights|
  {
    if sectors == [] then 0.0
    else SectorWeight(dict[sectors[0]], stocks, weights) + TotalAllocation(dict, sectors[1..], stocks, weights)
  }

  /** One more stock adds its weight once for every sector that lists it. */
  lemma {:induction false} TotalAllocationStep(dict: StockMap, sectors: seq<Sector>, stocks: seq<Symbol>, weights: seq<real>)
    requires Known(dict, sectors) && 0 < |stocks| <= |weights|
    ensures var n := |stocks| - 1;
      TotalAllocation(dict, sectors, stocks, weights) ==
      TotalAllocation(dict, sectors, stocks[..n], weights) + Hits(dict, sectors, stocks[n]) as real * weights[n]
  {
    if sectors != [] {
      TotalAllocationStep(dict, sectors[1..], stocks, weights);
    }
  }

  /**
   * When every selected stock lies in exactly one selected sector, the allocations add up to the
   * total weight of the selected stocks.
   */
  lemma {:induction false} AllocationSumsToWeights(dict: StockMap, sectors: seq<Sector>, stocks: seq<Symbol>, weights: seq<real>)
    requires Known(dict, sectors) && |stocks| <= |weights|
    requires forall i :: 0 <= i < |stocks| ==> Hits(dict, sectors, stocks[i]) == 1
    ensures TotalAllocation(dict, sectors, stocks, weights) == Sum(weights[..|stocks|])
  {
    if stocks == [] {
      ZeroAllocation(dict, sectors, weights);
    } else {
      var n := |stocks| - 1;
      TotalAllocationStep(dict, sectors, stocks, weights);
      AllocationSumsToWeights(dict, sectors, stocks[..n], weights);
      assert weights[..n + 1] == weights[..n] + [weights[n]];
      SumConcat(weights[..n], [weights[n]]);
    }
  }

  /** The entries of an allocation map, read in the order of the sectors and added up. */
  function MapTotal(allocation: map<Sector, real>, sectors: seq<Sector>): real
    requires forall i :: 0 <= i < |sectors| ==> sectors[i] in allocation
  {
    if sectors == [] then 0.0 else allocation[sectors[0]] + MapTotal(allocation, sectors[1..])
  }

  /** Read from a map holding each sector's weight, the entries add up to `TotalAllocation`. */
  lemma {:induction false} MapTotalIsTotalAllocation(dict: StockMap, sectors: seq<Sector>, stocks: seq<Symbol>,
                                                     weights: seq<real>, allocation: map<Sector, real>)
    requires Known(dict, sectors) && |stocks| <= |weights|
    requires forall i :: 0 <= i < |sectors| ==> sectors[i] in allocation
    requires forall s :: s in allocation ==> s in dict && allocation[s] == SectorWeight(dict[s], stocks, weights)
    ensures MapTotal(allocation, sectors) == TotalAllocation(dict, sectors, stocks, weights)
  {
    if sectors != [] {
      MapTotalIsTotalAllocation(dict, sectors[1..], stocks, weights, allocation);
    }
  }

  /**
   * The pie chart's slices: when distinct sectors of a disjoint table are selected and the
   * stocks come from their candidate list, the map `SectorAllocation` returns holds one entry
   * per sector, and those entries add up to the stocks' total weight.
   */
  lemma AllocationMapSumsToWeights(dict: StockMap, sectors: seq<Sector>, stocks: seq<Symbol>,
                                   weights: seq<real>, allocation: map<Sector, real>)
    requires Known(dict, sectors) && Disjoint(dict) && Distinct(sectors) && |stocks| <= |weights|
    requires forall i :: 0 <= i < |stocks| ==> stocks[i] in Members(dict, sectors)
    requires allocation.Keys == set s | s in sectors
    requires forall s :: s in allocation ==> s in dict && allocation[s] == SectorWeight(dict[s], stocks, weights)
    ensures MapTotal(allocation, sectors) == Sum(weights[..|stocks|])
  {
    forall i | 0 <= i < |sectors|
      ensures sectors[i] in allocation
    {
      assert sectors[i] in set s | s in sectors;
    }
    forall i | 0 <= i < |stocks|
      ensures Hits(dict, sectors, stocks[i]) == 1
    {
      CandidatesHitOnce(dict, sectors, stocks[i]);
    }
    MapTotalIsTotalAllocation(dict, sectors, stocks, weights, allocation);
    AllocationSumsToWeights(dict, sectors, stocks, weights);
  }

  lemma {:induction false} ZeroAllocation(dict: StockMap, sectors: seq<Sector>, weights: seq<real>)
    requires Known(dict, sectors)
    ensures TotalAllocation(dict, sectors, [], weights) == 0.0
  {
    if sectors != [] {
      ZeroAllocation(dict, sectors[1..], weights);
    }
  }

  /** No symbol is listed under two different sectors. */
  predicate Disjoint(dict: StockMap)
  {
    forall a, b, x :: a in dict && b in dict && a != b && x in dict[a] ==> x !in dict[b]
  }

  predicate Distinct(sectors: seq<Sector>)
  {
    forall i, j :: 0 <= i < j < |sectors| ==> sectors[i] != sectors[j]
  }

  /** With disjoint sectors selected at most once, a candidate stock is listed by exactly one of them. */
  lemma {:induction false} CandidatesHitOnce(dict: StockMap, sectors: seq<Sector>, x: Symbol)
    requires Known(dict, sectors) && Disjoint(dict) && Distinct(sectors)
    requires x in Members(dict, sectors)
    ensures Hits(dict, sectors, x) == 1
  {
    var rest := sectors[1..];
    assert Distinct(rest) by {
      forall i, j | 0 <= i < j < |rest| ensures rest[i] != rest[j] {
        assert rest[i] == sectors[i + 1] && rest[j] == sectors[j + 1];
      }
    }
    if x in dict[sectors[0]] {
      forall i | 0 <= i < |rest|
        ensures x !in dict[rest[i]]
      {
        assert rest[i] == sectors[i + 1] != sectors[0];
      }
      Missed(dict, rest, x);
    } else {
      CandidatesHitOnce(dict, rest, x);
    }
  }

  lemma {:induction false} Missed(dict: StockMap, sectors: seq<Sector>, x: Symbol)
    requires Known(dict, sectors)
    requires forall i :: 0 <= i < |sectors| ==> x !in dict[sectors[i]]
    ensures Hits(dict, sectors, x) == 0
  {
    if sectors != [] {
      assert x !in dict[sectors[0]];
      Missed(dict, sectors[1..], x);
    }
  }

  /** The built-in sector table lists every symbol under one sector only. */
  lemma StocksDisjoint()
    ensures Disjoint(STOCKS)
  {
    var tech, health, energy, fin := STOCKS["Technology"], STOCKS["Healthcare"], STOCKS["Energy"], STOCKS["Financials"];
    Apart(tech, health);
    Apart(tech, energy);
    Apart(tech, fin);
    Apart(health, energy);
    Apart(health, fin);
    Apart(energy, fin);
    assert STOCKS.Keys == {"Technology", "Healthcare", "Energy", "Financials"};
  }

  /** Two symbol lists with no symbol in common, stated both ways round. */
  lemma Apart(xs: seq<Symbol>, ys: seq<Symbol>)
    requires forall i, j :: 0 <= i < |xs| && 0 <= j < |ys| ==> xs[i] != ys[j]
    ensures forall x :: x in xs ==> x !in ys
    ensures forall y :: y in ys ==> y !in xs
  {
  }
}
