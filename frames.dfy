/**
 * Date-indexed tables: the price table the market-data provider returns and the return table
 * derived from it, with the boolean-mask selection (`frame[mask]`) that both the missing-row drop
 * and the inner join are built on.
 */
module Frames {
  import opened Wrappers

  /** A trading date, as an ordinal day number. */
  type Date = int

  /** A ticker symbol such as "AAPL". */
  type Symbol = string

  /** An adjusted close price; the provider never reports a non-positive one. */
  type Price = p: real | p > 0.0 witness 1.0

  predicate Increasing(s: seq<int>)
  {
    forall i, j :: 0 <= i < j < |s| ==> s[i] < s[j]
  }

  predicate Rectangular<T>(rows: seq<seq<T>>, width: nat)
  {
    forall t :: 0 <= t < |rows| ==> |rows[t]| == width
  }

  /** A row with no missing cell. */
  predicate Complete<T>(row: seq<Option<T>>)
  {
    forall s :: 0 <= s < |row| ==> row[s].Some?
  }

  /** Adjusted close prices: one row per date (ascending), one column per symbol; a cell is
      `None` where the provider has no price for that symbol on that date. */
  datatype PriceFrame = PriceFrame(index: seq<Date>, columns: seq<Symbol>, cells: seq<seq<Option<Price>>>) {
    predicate Valid()
    {
      |index| == |cells| && Increasing(index) && Rectangular(cells, |columns|)
    }
  }

  /** A table of returns without missing values, in the same shape conventions. */
  datatype ReturnFrame = ReturnFrame(index: seq<Date>, columns: seq<Symbol>, rows: seq<seq<real>>) {
    predicate Valid()
    {
      |index| == |rows| && Increasing(index) && Rectangular(rows, |columns|)
    }
  }

  /** Column `s` of a table, top to bottom (`frame.iloc[:, s]`). */
  function Column(rows: seq<seq<real>>, s: nat): (c: seq<real>)
    requires forall t :: 0 <= t < |rows| ==> s < |rows[t]|
    ensures |c| == |rows|
  {
    seq(|rows|, t requires 0 <= t < |rows| => rows[t][s])
  }

  /** The positions at which a boolean mask is true, in ascending order. */
  function Positions(mask: seq<bool>): (p: seq<nat>)
    ensures Increasing(p)
    ensures forall k :: 0 <= k < |p| ==> p[k] < |mask| && mask[p[k]]
    ensures forall i :: 0 <= i < |mask| && mask[i] ==> i in p
  {
    if mask == [] then []
    else
      var rest := Positions(mask[..|mask| - 1]);
      assert forall i :: 0 <= i < |mask| - 1 ==> mask[..|mask| - 1][i] == mask[i];
      if mask[|mask| - 1] then rest + [|mask| - 1] else rest
  }

  /** The elements of `s` at the given positions, in that order. */
  function Select<T>(s: seq<T>, p: seq<nat>): (r: seq<T>)
    requires forall k :: 0 <= k < |p| ==> p[k] < |s|
    ensures |r| == |p|
  {
    seq(|p|, k requires 0 <= k < |p| => s[p[k]])
  }

  /** Selecting ascending positions from an ascending index keeps it ascending. */
  lemma SelectIncreasing(s: seq<int>, p: seq<nat>)
    requires Increasing(s) && Increasing(p)
    requires forall k :: 0 <= k < |p| ==> p[k] < |s|
    ensures Increasing(Select(s, p))
  {
  }

  /** The position of a date in an ascending index. */
  function IndexOf(index: seq<Date>, d: Date): (i: nat)
    requires d in index
    ensures i < |index| && index[i] == d
  {
    if index[0] == d then 0 else 1 + IndexOf(index[1..], d)
  }

  lemma IndexOfUnique(index: seq<Date>, i: nat)
    requires Increasing(index) && i < |index|
    ensures IndexOf(index, index[i]) == i
  {
    var j := IndexOf(index, index[i]);
    assert !(j < i) && !(i < j);
  }

  /** A false entry in the mask means at least one position is not selected. */
  lemma {:induction false} PositionsSkip(mask: seq<bool>, i: nat)
    requires i < |mask| && !mask[i]
    ensures |Positions(mask)| <= |mask| - 1
  {
    var init := mask[..|mask| - 1];
    if i < |mask| - 1 {
      PositionsSkip(init, i);
    } else {
      PositionsBound(init);
    }
  }

  lemma {:induction false} PositionsBound(mask: seq<bool>)
    ensures |Positions(mask)| <= |mask|
  {
    if mask != [] {
      PositionsBound(mask[..|mask| - 1]);
    }
  }
}
