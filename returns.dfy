/**
 * Simple daily returns from a price table: `pct_change()` followed by `dropna()`.
 */
module Returns {
  import opened Wrappers
  import opened Frames

  /**
   * How `pct_change` treats a missing price. Before pandas 3 it forward-fills the column first
   * (`fill_method='pad'`, the default); from pandas 3 on it does not fill at all.
   */
  datatype FillMethod = Pad | NoFill

  function NoPrices(width: nat): (r: seq<Option<Price>>)
    ensures |r| == width
  {
    seq(width, _ => None)
  }

  /**
   * Forward fill, row by row: a missing cell takes the cell above it (`last` for the first row).
   * Every present price stays as it is, and once every column has had a price no cell is missing.
   */
  function FillForward(last: seq<Option<Price>>, rows: seq<seq<Option<Price>>>): (r: seq<seq<Option<Price>>>)
    requires Rectangular(rows, |last|)
    ensures |r| == |rows| && Rectangular(r, |last|)
    ensures forall t, s :: 0 <= t < |rows| && 0 <= s < |last| && rows[t][s].Some? ==> r[t][s] == rows[t][s]
    ensures Complete(last) ==> forall t :: 0 <= t < |r| ==> Complete(r[t])
    decreases |rows|
  {
    if rows == [] then []
    else
      var row := seq(|last|, s requires 0 <= s < |last| => if rows[0][s].Some? then rows[0][s] else last[s]);
      [row] + FillForward(row, rows[1..])
  }

  /** Filling forward leaves a table without gaps as it is. */
  lemma {:induction false} FillForwardComplete(last: seq<Option<Price>>, rows: seq<seq<Option<Price>>>)
    requires Rectangular(rows, |last|)
    requires forall t :: 0 <= t < |rows| ==> Complete(rows[t])
    ensures FillForward(last, rows) == rows
    decreases |rows|
  {
    if rows != [] {
      assert Complete(rows[0]);
      var row := seq(|last|, s requires 0 <= s < |last| => if rows[0][s].Some? then rows[0][s] else last[s]);
      assert row == rows[0];
      FillForwardComplete(rows[0], rows[1..]);
      assert FillForward(last, rows) == [rows[0]] + FillForward(rows[0], rows[1..]);
    }
  }

  /**
   * Cell by cell, a filled table keeps every present price and repeats the one above it (or
   * `last`, on the first row) where a price is missing.
   */
  lemma {:induction false} FillForwardAt(last: seq<Option<Price>>, rows: seq<seq<Option<Price>>>, t: nat, s: nat)
    requires Rectangular(rows, |last|) && t < |rows| && s < |last|
    ensures var f := FillForward(last, rows);
      f[t][s] == if rows[t][s].Some? then rows[t][s] else if t == 0 then last[s] else f[t - 1][s]
    decreases t
  {
    var row := seq(|last|, j requires 0 <= j < |last| => if rows[0][j].Some? then rows[0][j] else last[j]);
    assert FillForward(last, rows) == [row] + FillForward(row, rows[1..]);
    if t > 0 {
      FillForwardAt(row, rows[1..], t - 1, s);
    }
  }

  /** The prices `pct_change` divides. */
  function Filled(p: PriceFrame, fill: FillMethod): (c: seq<seq<Option<Price>>>)
    requires p.Valid()
    ensures |c| == |p.cells| && Rectangular(c, |p.columns|)
  {
    match fill
    case Pad => FillForward(NoPrices(|p.columns|), p.cells)
    case NoFill => p.cells
  }

  /** `cur / prev - 1`, missing when either price is. */
  function Change(prev: Option<Price>, cur: Option<Price>): Option<real>
  {
    if prev.Some? && cur.Some? then Some(cur.value as real / prev.value as real - 1.0) else None
  }

  /**
   * Row `t` compares each price with the one a row above; the first row has nothing above it.
   * A change is present exactly when both prices are, and is then their ratio less one.
   */
  function PctChange(c: seq<seq<Option<Price>>>, width: nat): (r: seq<seq<Option<real>>>)
    requires Rectangular(c, width)
    ensures |r| == |c| && Rectangular(r, width)
    ensures forall s :: 0 <= s < width && |c| > 0 ==> r[0][s].None?
    ensures forall t, s :: 1 <= t < |c| && 0 <= s < width ==>
      (r[t][s].Some? <==> c[t - 1][s].Some? && c[t][s].Some?) &&
      (r[t][s].Some? ==> r[t][s].value == c[t][s].value as real / c[t - 1][s].value as real - 1.0)
  {
    seq(|c|, t requires 0 <= t < |c| =>
      seq(width, s requires 0 <= s < width => if t == 0 then None else Change(c[t - 1][s], c[t][s])))
  }

  function CompleteRows(cells: seq<seq<Option<real>>>): (mask: seq<bool>)
    ensures |mask| == |cells|
  {
    seq(|cells|, t requires 0 <= t < |cells| => Complete(cells[t]))
  }

  /**
   * `dropna()`: every row with a missing cell goes, the others keep their date and order. No
   * row is added, and the date of every complete row survives.
   */
  function DropIncomplete(index: seq<Date>, columns: seq<Symbol>, cells: seq<seq<Option<real>>>): (r: ReturnFrame)
    requires |index| == |cells| && Increasing(index) && Rectangular(cells, |columns|)
    ensures r.Valid() && r.columns == columns
    ensures |r.index| <= |index|
    ensures forall t :: 0 <= t < |cells| && Complete(cells[t]) ==> index[t] in r.index
  {
    var mask := CompleteRows(cells);
    var keep := Positions(mask);
    SelectIncreasing(index, keep);
    PositionsBound(mask);
    var kept := Select(index, keep);
    assert forall t :: 0 <= t < |cells| && Complete(cells[t]) ==> index[t] in kept by {
      forall t | 0 <= t < |cells| && Complete(cells[t])
        ensures index[t] in kept
      {
        assert mask[t];
        var k :| 0 <= k < |keep| && keep[k] == t;
        assert kept[k] == index[t];
      }
    }
    ReturnFrame(kept, columns,
      seq(|keep|, k requires 0 <= k < |keep| =>
        seq(|columns|, s requires 0 <= s < |columns| => cells[keep[k]][s].value)))
  }

  /** `data.pct_change().dropna()`. */
  function DailyReturns(p: PriceFrame, fill: FillMethod): (r: ReturnFrame)
    requires p.Valid()
    ensures r.Valid() && r.columns == p.columns
  {
    DropIncomplete(p.index, p.columns, PctChange(Filled(p, fill), |p.columns|))
  }

  /** Every return row stems from a date `t` after the first and the price rows `t - 1` and `t`. */
  lemma ReturnRowOrigin(p: PriceFrame, fill: FillMethod, k: nat) returns (t: nat)
    requires p.Valid() && |p.columns| > 0
    requires k < |DailyReturns(p, fill).rows|
    ensures 1 <= t < |p.index|
    ensures DailyReturns(p, fill).index[k] == p.index[t]
    ensures Complete(Filled(p, fill)[t - 1]) && Complete(Filled(p, fill)[t])
    ensures forall s :: 0 <= s < |p.columns| ==>
      DailyReturns(p, fill).rows[k][s] ==
        Filled(p, fill)[t][s].value as real / Filled(p, fill)[t - 1][s].value as real - 1.0
  {
    var c := Filled(p, fill);
    var cells := PctChange(c, |p.columns|);
    assert DailyReturns(p, fill) == DropIncomplete(p.index, p.columns, cells);
    t := KeptRow(p.index, p.columns, cells, k);
    assert cells[t][0].Some?;
    ChangeRowComplete(c, |p.columns|, t);
  }

  /** The `k`-th row left by `dropna()` is a complete row `t`, with its date and its values. */
  lemma KeptRow(index: seq<Date>, columns: seq<Symbol>, cells: seq<seq<Option<real>>>, k: nat) returns (t: nat)
    requires |index| == |cells| && Increasing(index) && Rectangular(cells, |columns|)
    requires k < |DropIncomplete(index, columns, cells).rows|
    ensures t < |cells| && Complete(cells[t])
    ensures DropIncomplete(index, columns, cells).index[k] == index[t]
    ensures forall s :: 0 <= s < |columns| ==> DropIncomplete(index, columns, cells).rows[k][s] == cells[t][s].value
  {
    var keep := Positions(CompleteRows(cells));
    t := keep[k];
    assert CompleteRows(cells)[t];
  }

  /** After `dropna()` a date is still present exactly when its row had no missing cell. */
  lemma DropKeepsComplete(index: seq<Date>, columns: seq<Symbol>, cells: seq<seq<Option<real>>>, t: nat)
    requires |index| == |cells| && Increasing(index) && Rectangular(cells, |columns|)
    requires t < |cells|
    ensures index[t] in DropIncomplete(index, columns, cells).index <==> Complete(cells[t])
  {
    var keep := Positions(CompleteRows(cells));
    var r := DropIncomplete(index, columns, cells);
    assert r.index == Select(index, keep);
    if index[t] in r.index {
      var k :| 0 <= k < |r.index| && r.index[k] == index[t];
      assert index[keep[k]] == index[t];
      assert keep[k] == t;
    }
    if Complete(cells[t]) {
      assert CompleteRows(cells)[t];
      assert t in keep;
      var k :| 0 <= k < |keep| && keep[k] == t;
      assert r.index[k] == index[t];
    }
  }

  lemma ChangeRowComplete(c: seq<seq<Option<Price>>>, width: nat, t: nat)
    requires Rectangular(c, width) && 1 <= t < |c|
    ensures Complete(PctChange(c, width)[t]) <==> Complete(c[t - 1]) && Complete(c[t])
  {
    var row, prev, cur := PctChange(c, width)[t], c[t - 1], c[t];
    assert |prev| == |cur| == |row| == width;
    assert forall s :: 0 <= s < width ==> row[s] == Change(prev[s], cur[s]);
    if Complete(row) {
      forall s | 0 <= s < width
        ensures prev[s].Some? && cur[s].Some?
      {
        assert row[s].Some?;
      }
      assert Complete(prev) && Complete(cur);
    } else {
      var s :| 0 <= s < width && row[s].None?;
      assert prev[s].None? || cur[s].None?;
    }
  }

  /** A date after the first keeps its return row exactly when no price it divides is missing. */
  lemma RowKeptIffComplete(p: PriceFrame, fill: FillMethod, t: nat)
    requires p.Valid() && 1 <= t < |p.index|
    ensures p.index[t] in DailyReturns(p, fill).index <==>
      Complete(Filled(p, fill)[t - 1]) && Complete(Filled(p, fill)[t])
  {
    var c := Filled(p, fill);
    DropKeepsComplete(p.index, p.columns, PctChange(c, |p.columns|), t);
    ChangeRowComplete(c, |p.columns|, t);
    assert DailyReturns(p, fill) == DropIncomplete(p.index, p.columns, PctChange(c, |p.columns|));
  }

  /** With at least one symbol there are fewer return rows than price rows. */
  lemma ReturnRowCount(p: PriceFrame, fill: FillMethod)
    requires p.Valid() && |p.columns| > 0 && |p.index| > 0
    ensures |DailyReturns(p, fill).rows| <= |p.index| - 1
  {
    var cells := PctChange(Filled(p, fill), |p.columns|);
    var mask := CompleteRows(cells);
    assert !mask[0] by {
      assert cells[0][0].None?;
    }
    PositionsSkip(mask, 0);
  }

  /** On a table without gaps, filling forward changes no return. */
  lemma PadAgreesWithoutGaps(p: PriceFrame)
    requires p.Valid()
    requires forall t :: 0 <= t < |p.cells| ==> Complete(p.cells[t])
    ensures DailyReturns(p, Pad) == DailyReturns(p, NoFill)
  {
    FillForwardComplete(NoPrices(|p.columns|), p.cells);
  }
}
