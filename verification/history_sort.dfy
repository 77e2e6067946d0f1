/** The post-processing sort `history.sort((a, b) => a.date.localeCompare(b.date))`,
    with `localeCompare` read as code-point lexicographic order (which is
    chronological order for fixed-width `YYYY-MM-DD` dates). `Array.prototype.sort`
    is stable; the model is a stable insertion sort. */
module HistorySort {
  import opened Strings
  import opened Types

  /** Ascending by date: every earlier bar's date is at most every later one's. */
  ghost predicate SortedByDate(xs: seq<StockHistoryItem>) {
    forall i, j :: 0 <= i < j < |xs| ==> LexLe(xs[i].date, xs[j].date)
  }

  /** Inserts `x` before the first bar whose date is not earlier than its own. */
  function Insert(x: StockHistoryItem, xs: seq<StockHistoryItem>): (r: seq<StockHistoryItem>)
    requires SortedByDate(xs)
    ensures multiset(r) == multiset(xs) + multiset{x}
    ensures SortedByDate(r)
    decreases |xs|
  {
    if |xs| == 0 then [x]
    else if LexLe(x.date, xs[0].date) then
      InsertFrontSorted(x, xs);
      [x] + xs
    else
      var rest := Insert(x, xs[1..]);
      assert xs == [xs[0]] + xs[1..];
      LexLeTotal(x.date, xs[0].date);
      ConsSorted(xs[0], rest, xs[1..], x);
      [xs[0]] + rest
  }

  /** A bar no later than the head of a sorted sequence can go in front of it. */
  lemma InsertFrontSorted(x: StockHistoryItem, xs: seq<StockHistoryItem>)
    requires SortedByDate(xs) && |xs| > 0 && LexLe(x.date, xs[0].date)
    ensures SortedByDate([x] + xs)
  {
    forall j | 0 <= j < |xs|
      ensures LexLe(x.date, xs[j].date)
    {
      if j > 0 {
        LexLeTransitive(x.date, xs[0].date, xs[j].date);
      }
    }
  }

  /** A bar no later than every element of a sorted sequence can go in front of it. */
  lemma ConsSorted(h: StockHistoryItem, rest: seq<StockHistoryItem>, others: seq<StockHistoryItem>, x: StockHistoryItem)
    requires SortedByDate(rest)
    requires multiset(rest) == multiset(others) + multiset{x}
    requires forall j :: 0 <= j < |others| ==> LexLe(h.date, others[j].date)
    requires LexLe(h.date, x.date)
    ensures SortedByDate([h] + rest)
  {
    forall j | 0 <= j < |rest|
      ensures LexLe(h.date, rest[j].date)
    {
      assert rest[j] in multiset(rest);
      if rest[j] != x {
        assert rest[j] in multiset(others);
        var k :| 0 <= k < |others| && others[k] == rest[j];
      }
    }
  }

  /** The sorted history: a permutation of the input, ascending by date. */
  function SortByDate(xs: seq<StockHistoryItem>): (r: seq<StockHistoryItem>)
    ensures multiset(r) == multiset(xs)
    ensures SortedByDate(r)
    decreases |xs|
  {
    if |xs| == 0 then []
    else
      assert xs == [xs[0]] + xs[1..];
      Insert(xs[0], SortByDate(xs[1..]))
  }

  /** Sorting leaves an already ascending history exactly as it is (which makes
      the sort idempotent). */
  lemma {:induction false} SortKeepsSorted(xs: seq<StockHistoryItem>)
    requires SortedByDate(xs)
    ensures SortByDate(xs) == xs
    decreases |xs|
  {
    if |xs| > 0 {
      SortKeepsSorted(xs[1..]);
      if |xs| > 1 {
        assert LexLe(xs[0].date, xs[1..][0].date);
      }
      assert xs == [xs[0]] + xs[1..];
    }
  }

  lemma SortIdempotent(xs: seq<StockHistoryItem>)
    ensures SortByDate(SortByDate(xs)) == SortByDate(xs)
  {
    SortKeepsSorted(SortByDate(xs));
  }

  /** In an ascending history the last bar has the latest date. */
  lemma SortedLastIsLatest(r: seq<StockHistoryItem>)
    requires SortedByDate(r) && |r| > 0
    ensures forall i :: 0 <= i < |r| ==> LexLe(r[i].date, r[|r| - 1].date)
  {
    LexLeReflexive(r[|r| - 1].date);
  }

  /** The sorted history ends with a bar whose date is the latest of all input bars. */
  lemma SortedEndsWithLatest(xs: seq<StockHistoryItem>)
    requires |xs| > 0
    ensures |SortByDate(xs)| == |xs|
    ensures forall i :: 0 <= i < |xs| ==> LexLe(xs[i].date, Last(SortByDate(xs)).date)
  {
    var r := SortByDate(xs);
    assert |r| == |xs| by {
      assert |multiset(r)| == |multiset(xs)|;
    }
    SortedLastIsLatest(r);
    forall i | 0 <= i < |xs|
      ensures LexLe(xs[i].date, Last(r).date)
    {
      assert xs[i] in multiset(xs);
      assert xs[i] in r;
    }
  }

  function Last(r: seq<StockHistoryItem>): StockHistoryItem
    requires |r| > 0
  {
    r[|r| - 1]
  }

  /** `if (data.history && Array.isArray(data.history)) data.history.sort(...)`:
      an array is sorted, anything else is left untouched. */
  function SortHistory(h: History): (r: History)
    ensures h.HistoryArray? <==> r.HistoryArray?
    ensures h.HistoryArray? ==> multiset(r.items) == multiset(h.items) && SortedByDate(r.items)
    ensures !h.HistoryArray? ==> r == h
  {
    match h
    case HistoryArray(items) => HistoryArray(SortByDate(items))
    case _ => h
  }
}
