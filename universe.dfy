/**
 * The fixed sector table and the candidate stock list built from the sectors a user selects.
 */
module Universe {
  import opened Frames

  type Sector = string

  /** Sector name to its member symbols, in listing order. */
  type StockMap = map<Sector, seq<Symbol>>

  /** The four sectors, in the order the sector picker offers (and pre-selects) them. */
  const SECTORS: seq<Sector> := ["Technology", "Healthcare", "Energy", "Financials"]

  const STOCKS: StockMap := map[
    "Technology" := ["AAPL", "MSFT", "GOOGL", "NVDA", "AMD"],
    "Healthcare" := ["JNJ", "PFE", "MRK", "UNH", "ABT"],
    "Energy" := ["XOM", "CVX", "BP", "SLB", "COP"],
    "Financials" := ["JPM", "BAC", "WFC", "GS", "MS"]
  ]

  predicate Known(dict: StockMap, sectors: seq<Sector>)
  {
    forall i :: 0 <= i < |sectors| ==> sectors[i] in dict
  }

  /** The members of the given sectors, sector after sector in selection order. */
  function Members(dict: StockMap, sectors: seq<Sector>): seq<Symbol>
    requires Known(dict, sectors)
  {
    if sectors == [] then [] else dict[sectors[0]] + Members(dict, sectors[1..])
  }

  /** The number of members the given sectors list, counted sector by sector. */
  function TotalSize(dict: StockMap, sectors: seq<Sector>): nat
    requires Known(dict, sectors)
  {
    if sectors == [] then 0 else |dict[sectors[0]]| + TotalSize(dict, sectors[1..])
  }

  lemma {:induction false} MembersAppend(dict: StockMap, sectors: seq<Sector>, s: Sector)
    requires Known(dict, sectors) && s in dict
    ensures Known(dict, sectors + [s])
    ensures Members(dict, sectors + [s]) == Members(dict, sectors) + dict[s]
  {
    if sectors != [] {
      assert (sectors + [s])[1..] == sectors[1..] + [s];
      MembersAppend(dict, sectors[1..], s);
    }
  }

  lemma {:induction false} MembersLength(dict: StockMap, sectors: seq<Sector>)
    requires Known(dict, sectors)
    ensures |Members(dict, sectors)| == TotalSize(dict, sectors)
  {
    if sectors != [] {
      MembersLength(dict, sectors[1..]);
    }
  }

  /** A symbol is a candidate exactly when one of the selected sectors lists it. */
  lemma {:induction false} MembersContain(dict: StockMap, sectors: seq<Sector>, x: Symbol)
    requires Known(dict, sectors)
    ensures x in Members(dict, sectors) <==> exists i :: 0 <= i < |sectors| && x in dict[sectors[i]]
  {
    if sectors != [] {
      MembersContain(dict, sectors[1..], x);
      if x in Members(dict, sectors[1..]) {
        var i :| 0 <= i < |sectors[1..]| && x in dict[sectors[1..][i]];
        assert x in dict[sectors[i + 1]];
      }
      if exists i :: 0 <= i < |sectors| && x in dict[sectors[i]] {
        var i :| 0 <= i < |sectors| && x in dict[sectors[i]];
        if i > 0 {
          assert x in dict[sectors[1..][i - 1]];
        }
      }
    }
  }

  /** `final_stocks`: start empty and extend it by each selected sector's members in turn. */
  method CandidateStocks(dict: StockMap, selected: seq<Sector>) returns (finalStocks: seq<Symbol>)
    requires Known(dict, selected)
    ensures finalStocks == Members(dict, selected)
    ensures |finalStocks| == TotalSize(dict, selected)
  {
    finalStocks := [];
    var i := 0;
    while i < |selected|
      invariant 0 <= i <= |selected|
      invariant Known(dict, selected[..i])
      invariant finalStocks == Members(dict, selected[..i])
    {
      MembersAppend(dict, selected[..i], selected[i]);
      assert selected[..i + 1] == selected[..i] + [selected[i]];
      finalStocks := finalStocks + dict[selected[i]];
      i := i + 1;
    }
    assert selected[..i] == selected;
    MembersLength(dict, selected);
  }

  /** With every sector selected (the default) the candidate list has 20 symbols, AAPL first. */
  lemma DefaultUniverse()
    ensures Known(STOCKS, SECTORS)
    ensures |Members(STOCKS, SECTORS)| == 20
    ensures Members(STOCKS, SECTORS)[0] == "AAPL" && Members(STOCKS, SECTORS)[19] == "MS"
  {
    MembersLength(STOCKS, SECTORS);
  }
}
