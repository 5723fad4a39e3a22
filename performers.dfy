/**
 * Top and bottom performers: each stock's total return over the window, ranked from best to
 * worst, and the first and last three of that ranking.
 */
module Performers {
  import opened Frames
  import opened Sorting
  import opened Cumulative

  /** How many entries each of the two tables shows. */
  const SHOWN: nat := 3

  datatype Performance = Performance(symbol: Symbol, total: real)

  /** `(1 + returns).cumprod().iloc[-1] - 1`, labelled by column: `∏ (1 + r) - 1` per stock. */
  function Performances(daily: ReturnFrame): (p: seq<Performance>)
    requires daily.Valid() && |daily.rows| > 0
    ensures |p| == |daily.columns|
    ensures forall s :: 0 <= s < |daily.columns| ==>
      p[s].symbol == daily.columns[s] && p[s].total == Growth(Column(daily.rows, s)) - 1.0
  {
    seq(|daily.columns|, s requires 0 <= s < |daily.columns| =>
      Performance(daily.columns[s], TotalReturn(Column(daily.rows, s))))
  }

  /** Sorting key: a higher total return ranks earlier. */
  function Descending(p: Performance): real
  {
    -p.total
  }

  /**
   * `sort_values(ascending=False)`: every entry kept, from the highest total return to the
   * lowest.
   */
  function Ranked(p: seq<Performance>): (r: seq<Performance>)
    ensures multiset(r) == multiset(p)
    ensures forall i, j :: 0 <= i < j < |r| ==> r[i].total >= r[j].total
  {
    var r := SortBy(p, Descending);
    SortBySorted(p, Descending);
    assert forall i, j :: 0 <= i < j < |r| ==> r[i].total >= r[j].total by {
      forall i, j | 0 <= i < j < |r|
        ensures r[i].total >= r[j].total
      {
        assert Descending(r[i]) <= Descending(r[j]);
      }
    }
    r
  }

  function MinNat(a: nat, b: nat): nat
  {
    if a <= b then a else b
  }

  datatype PerformerTable = PerformerTable(top: seq<Performance>, bottom: seq<Performance>)

  /** `head(3)` and `tail(3)` of the ranking, neither deduplicated against the other. */
  function HeadTail(ranked: seq<Performance>): (t: PerformerTable)
    ensures |t.top| == |t.bottom| == MinNat(SHOWN, |ranked|)
    ensures t.top == ranked[..MinNat(SHOWN, |ranked|)]
    ensures t.bottom == ranked[|ranked| - MinNat(SHOWN, |ranked|)..]
  {
    var m := MinNat(SHOWN, |ranked|);
    PerformerTable(ranked[..m], ranked[|ranked| - m..])
  }

  /**
   * The two tables for the return table's columns. Each shows min(3, stocks) of the stocks'
   * performances, from best to worst, and no stock left out of a table did better than a top
   * entry or worse than a bottom entry.
   */
  function TopBottom(daily: ReturnFrame): (t: PerformerTable)
    requires daily.Valid() && |daily.rows| > 0
    ensures |t.top| == |t.bottom| == MinNat(SHOWN, |daily.columns|)
    ensures multiset(t.top) <= multiset(Performances(daily))
    ensures multiset(t.bottom) <= multiset(Performances(daily))
    ensures forall i, j :: 0 <= i < j < |t.top| ==> t.top[i].total >= t.top[j].total
    ensures forall i, j :: 0 <= i < j < |t.bottom| ==> t.bottom[i].total >= t.bottom[j].total
    ensures forall k, x :: 0 <= k < |t.top| && x in Performances(daily) && x !in t.top ==>
      x.total <= t.top[k].total
    ensures forall k, x :: 0 <= k < |t.bottom| && x in Performances(daily) && x !in t.bottom ==>
      x.total >= t.bottom[k].total
  {
    var p := Performances(daily);
    TopShown(p);
    BottomShown(p);
    HeadTail(Ranked(p))
  }

  /** The top table: ranked entries from best to worst that no entry left out of it beats. */
  lemma TopShown(p: seq<Performance>)
    ensures var top := HeadTail(Ranked(p)).top;
      multiset(top) <= multiset(p) &&
      (forall i, j :: 0 <= i < j < |top| ==> top[i].total >= top[j].total) &&
      (forall k, x :: 0 <= k < |top| && x in p && x !in top ==> x.total <= top[k].total)
  {
    var r := Ranked(p);
    RankedMembers(p);
    RankedHead(r, MinNat(SHOWN, |r|));
    TopUnbeaten(p, r, MinNat(SHOWN, |r|));
  }

  /** The bottom table: ranked entries from best to worst that no entry left out of it trails. */
  lemma BottomShown(p: seq<Performance>)
    ensures var bottom := HeadTail(Ranked(p)).bottom;
      multiset(bottom) <= multiset(p) &&
      (forall i, j :: 0 <= i < j < |bottom| ==> bottom[i].total >= bottom[j].total) &&
      (forall k, x :: 0 <= k < |bottom| && x in p && x !in bottom ==> x.total >= bottom[k].total)
  {
    var r := Ranked(p);
    RankedMembers(p);
    RankedTail(r, |r| - MinNat(SHOWN, |r|));
    BottomUnbeaten(p, r, |r| - MinNat(SHOWN, |r|));
  }

  /** The ranking lists exactly the stocks it ranks. */
  lemma RankedMembers(p: seq<Performance>)
    ensures forall x :: x in p <==> x in Ranked(p)
  {
    var r := Ranked(p);
    forall x
      ensures x in p <==> x in r
    {
      assert x in p <==> x in multiset(p);
      assert x in r <==> x in multiset(r);
    }
  }

  /** The first `upto` entries of a ranking are some of its entries, still from best to worst. */
  lemma RankedHead(r: seq<Performance>, upto: nat)
    requires forall i, j :: 0 <= i < j < |r| ==> r[i].total >= r[j].total
    requires upto <= |r|
    ensures multiset(r[..upto]) <= multiset(r)
    ensures forall i, j :: 0 <= i < j < upto ==> r[..upto][i].total >= r[..upto][j].total
  {
    assert r == r[..upto] + r[upto..];
  }

  /** The entries of a ranking from position `from` on are some of its entries, still in order. */
  lemma RankedTail(r: seq<Performance>, from: nat)
    requires forall i, j :: 0 <= i < j < |r| ==> r[i].total >= r[j].total
    requires from <= |r|
    ensures multiset(r[from..]) <= multiset(r)
    ensures forall i, j :: 0 <= i < j < |r| - from ==> r[from..][i].total >= r[from..][j].total
  {
    assert r == r[..from] + r[from..];
    forall i, j | 0 <= i < j < |r| - from
      ensures r[from..][i].total >= r[from..][j].total
    {
      assert r[from..][i] == r[from + i] && r[from..][j] == r[from + j];
    }
  }

  /** No stock outside the first `upto` entries of its ranking did better than one of them. */
  lemma TopUnbeaten(p: seq<Performance>, r: seq<Performance>, upto: nat)
    requires forall i, j :: 0 <= i < j < |r| ==> r[i].total >= r[j].total
    requires forall x :: x in p <==> x in r
    requires upto <= |r|
    ensures forall k, x :: 0 <= k < upto && x in p && x !in r[..upto] ==> x.total <= r[..upto][k].total
  {
    forall k, x | 0 <= k < upto && x in p && x !in r[..upto]
      ensures x.total <= r[..upto][k].total
    {
      NotShownAbove(r, upto, k, x);
    }
  }

  /** No stock before position `from` of its ranking did worse than one from there on. */
  lemma BottomUnbeaten(p: seq<Performance>, r: seq<Performance>, from: nat)
    requires forall i, j :: 0 <= i < j < |r| ==> r[i].total >= r[j].total
    requires forall x :: x in p <==> x in r
    requires from <= |r|
    ensures forall k, x :: 0 <= k < |r| - from && x in p && x !in r[from..] ==> x.total >= r[from..][k].total
  {
    forall k, x | 0 <= k < |r| - from && x in p && x !in r[from..]
      ensures x.total >= r[from..][k].total
    {
      NotShownBelow(r, from, k, x);
    }
  }

  /** In a ranking from best to worst, an earlier entry did at least as well as a later one. */
  lemma RankedOrder(r: seq<Performance>, a: nat, b: nat)
    requires forall i, j :: 0 <= i < j < |r| ==> r[i].total >= r[j].total
    requires a <= b < |r|
    ensures r[a].total >= r[b].total
  {
    if a < b {
      assert r[a].total >= r[b].total;
    }
  }

  /** An entry of the ranking outside its first `upto` did no better than any of them. */
  lemma NotShownAbove(r: seq<Performance>, upto: nat, k: nat, x: Performance)
    requires forall i, j :: 0 <= i < j < |r| ==> r[i].total >= r[j].total
    requires k < upto <= |r| && x in r && x !in r[..upto]
    ensures x.total <= r[k].total
  {
    var j :| 0 <= j < |r| && r[j] == x;
    assert forall i :: 0 <= i < upto ==> r[i] != x by {
      forall i | 0 <= i < upto
        ensures r[i] != x
      {
        assert r[..upto][i] == r[i];
      }
    }
    RankedOrder(r, k, j);
  }

  /** An entry of the ranking before position `from` did no worse than any entry from there on. */
  lemma NotShownBelow(r: seq<Performance>, from: nat, k: nat, x: Performance)
    requires forall i, j :: 0 <= i < j < |r| ==> r[i].total >= r[j].total
    requires from + k < |r| && x in r && x !in r[from..]
    ensures x.total >= r[from..][k].total
  {
    var j :| 0 <= j < |r| && r[j] == x;
    assert forall i :: from <= i < |r| ==> r[i] != x by {
      forall i | from <= i < |r|
        ensures r[i] != x
      {
        assert r[from..][i - from] == r[i];
      }
    }
    RankedOrder(r, j, from + k);
  }

  /** A stock that did strictly better than the k-th top entry is listed above it. */
  lemma TopDominates(p: seq<Performance>, k: nat, x: Performance)
    requires k < MinNat(SHOWN, |p|)
    requires x in p && x.total > HeadTail(Ranked(p)).top[k].total
    ensures x in HeadTail(Ranked(p)).top[..k]
  {
    var r := Ranked(p);
    assert x in multiset(p);
    var upto := MinNat(SHOWN, |r|);
    assert HeadTail(r).top == r[..upto];
    AboveInRanking(r, upto, k, x);
  }

  /** In a ranking from best to worst, an entry strictly better than `r[k]` lies before it. */
  lemma AboveInRanking(r: seq<Performance>, upto: nat, k: nat, x: Performance)
    requires forall i, j :: 0 <= i < j < |r| ==> r[i].total >= r[j].total
    requires k < upto <= |r| && x in r && x.total > r[k].total
    ensures x in r[..upto][..k]
  {
    var j :| 0 <= j < |r| && r[j] == x;
    assert j < k;
    assert r[..upto][..k][j] == x;
  }

  /** A stock that did strictly worse than the k-th bottom entry is listed below it. */
  lemma BottomDominated(p: seq<Performance>, k: nat, x: Performance)
    requires k < MinNat(SHOWN, |p|)
    requires x in p && x.total < HeadTail(Ranked(p)).bottom[k].total
    ensures x in HeadTail(Ranked(p)).bottom[k + 1..]
  {
    var r := Ranked(p);
    assert x in multiset(p);
    var from := |r| - MinNat(SHOWN, |r|);
    assert HeadTail(r).bottom == r[from..];
    BelowInRanking(r, from, k, x);
  }

  /** In a ranking from best to worst, an entry strictly worse than `r[from + k]` lies after it. */
  lemma BelowInRanking(r: seq<Performance>, from: nat, k: nat, x: Performance)
    requires forall i, j :: 0 <= i < j < |r| ==> r[i].total >= r[j].total
    requires from + k < |r| && x in r && x.total < r[from + k].total
    ensures x in r[from..][k + 1..]
  {
    var j :| 0 <= j < |r| && r[j] == x;
    assert j > from + k;
    assert r[from..][k + 1..][j - (from + k + 1)] == x;
  }

  /**
   * With fewer than six stocks the two tables share entries: the best of the bottom table is
   * also in the top table, and with three or fewer both tables are the whole ranking. With six
   * or more, the two tables and the entries between them make up the ranking in order.
   */
  lemma TopBottomOverlap(p: seq<Performance>)
    ensures var t := HeadTail(Ranked(p));
      (0 < |p| < 2 * SHOWN ==> t.bottom[0] in t.top) &&
      (|p| <= SHOWN ==> t.top == t.bottom == Ranked(p)) &&
      (|p| >= 2 * SHOWN ==> t.top + Ranked(p)[SHOWN..|p| - SHOWN] + t.bottom == Ranked(p))
  {
    var r := Ranked(p);
    assert |r| == |multiset(r)| == |p|;
    if 0 < |r| < 2 * SHOWN {
      SharedEntry(r);
    }
    if |r| <= SHOWN {
      WholeRanking(r);
    }
    if |r| >= 2 * SHOWN {
      RankingSplit(r);
    }
  }

  /** Below six entries the first entry of the tail is also in the head. */
  lemma SharedEntry(r: seq<Performance>)
    requires 0 < |r| < 2 * SHOWN
    ensures HeadTail(r).bottom[0] in HeadTail(r).top
  {
    var m := MinNat(SHOWN, |r|);
    assert HeadTail(r).bottom[0] == r[|r| - m] == HeadTail(r).top[|r| - m];
  }

  /** With at most three entries both tables are the whole ranking. */
  lemma WholeRanking(r: seq<Performance>)
    requires |r| <= SHOWN
    ensures HeadTail(r).top == HeadTail(r).bottom == r
  {
    assert r[..|r|] == r && r[0..] == r;
  }

  /** With six entries or more, head, middle and tail make up the ranking in order. */
  lemma RankingSplit(r: seq<Performance>)
    requires |r| >= 2 * SHOWN
    ensures HeadTail(r).top + r[SHOWN..|r| - SHOWN] + HeadTail(r).bottom == r
  {
    assert r == r[..SHOWN] + r[SHOWN..|r| - SHOWN] + r[|r| - SHOWN..];
  }
}
