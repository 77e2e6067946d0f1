/** The logic of `components/PriceChart.tsx`: the placeholder for missing
    data, the Y-axis domain around the closing prices, and the X-axis tick
    format. */
module PriceChart {
  import opened Wrappers
  import opened Strings
  import opened Calendar
  import opened Types

  /** The Y-axis range `[minPrice - padding, maxPrice + padding]`. */
  datatype Domain = Domain(lo: real, hi: real)

  /** What the chart component renders: the "no data" placeholder, or the area
      chart with the values behind its Y-axis domain. */
  datatype ChartView = Placeholder | AreaChart(minPrice: real, maxPrice: real, padding: real, domain: Domain)

  /** `data.map(d => d.close)`. */
  function Closes(data: seq<StockHistoryItem>): (prices: seq<real>)
    ensures |prices| == |data|
    ensures forall i :: 0 <= i < |data| ==> prices[i] == data[i].close
  {
    seq(|data|, i requires 0 <= i < |data| => data[i].close)
  }

  /** `Math.min(...xs)` for a non-empty list. */
  function MinOf(xs: seq<real>): (m: real)
    requires |xs| > 0
    ensures m in xs
    ensures forall i :: 0 <= i < |xs| ==> m <= xs[i]
    decreases |xs|
  {
    if |xs| == 1 then xs[0]
    else
      var rest := MinOf(xs[1..]);
      if xs[0] <= rest then xs[0] else rest
  }

  /** `Math.max(...xs)` for a non-empty list. */
  function MaxOf(xs: seq<real>): (m: real)
    requires |xs| > 0
    ensures m in xs
    ensures forall i :: 0 <= i < |xs| ==> xs[i] <= m
    decreases |xs|
  {
    if |xs| == 1 then xs[0]
    else
      var rest := MaxOf(xs[1..]);
      if xs[0] >= rest then xs[0] else rest
  }

  /** The chart for `data`: the placeholder when it is missing or empty
      (before any minimum or maximum is taken), otherwise a domain that
      contains every closing price with a tenth of the range as margin. */
  function Chart(data: Option<seq<StockHistoryItem>>): (v: ChartView)
    ensures v.Placeholder? <==> data.None? || |data.value| == 0
    ensures v.AreaChart? ==> v.minPrice in Closes(data.value) && v.maxPrice in Closes(data.value)
    ensures v.AreaChart? ==> forall i :: 0 <= i < |data.value| ==> v.minPrice <= data.value[i].close <= v.maxPrice
    ensures v.AreaChart? ==> v.padding >= 0.0 && v.padding * 10.0 == v.maxPrice - v.minPrice
    ensures v.AreaChart? ==> v.domain == Domain(v.minPrice - v.padding, v.maxPrice + v.padding)
    ensures v.AreaChart? ==> forall i :: 0 <= i < |data.value| ==> v.domain.lo <= data.value[i].close <= v.domain.hi
  {
    if data.None? || |data.value| == 0 then Placeholder
    else
      var prices := Closes(data.value);
      var lo := MinOf(prices);
      var hi := MaxOf(prices);
      var padding := (hi - lo) * 0.1;
      AreaChart(lo, hi, padding, Domain(lo - padding, hi + padding))
  }

  /** `formatDateTick`: characters 5 to 9 of a string of at least ten
      characters, any shorter string as it is. */
  function FormatDateTick(dateStr: string): (r: string)
    ensures |dateStr| >= 10 ==> |r| == 5 && r == dateStr[5..10]
    ensures |dateStr| < 10 ==> r == dateStr
  {
    if |dateStr| >= 10 then dateStr[5..10] else dateStr
  }

  /** On a full-date the tick is its `MM-DD` part. */
  lemma TickOfFullDate(s: string)
    requires IsFullDate(s)
    ensures var r := FormatDateTick(s);
      && |r| == 5 && r[2] == '-'
      && AllDigits(r[..2]) && DecimalValue(r[..2]) == ParseFullDate(s).month
      && AllDigits(r[3..]) && DecimalValue(r[3..]) == ParseFullDate(s).day
  {
    var r := FormatDateTick(s);
    assert r[..2] == s[5..7];
    assert r[3..] == s[8..];
  }
}
