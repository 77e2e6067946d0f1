/** The display logic of `components/StockDashboard.tsx`: the Chinese labels
    for the trading action and risk level, their colour tones, the sign and
    colour of change values, the newest-first history table, and the guard on
    the citation list. */
module Dashboard {
  import opened Wrappers
  import opened Strings
  import opened Types
  import opened HistorySort

  // ---------------------------------------------------------------------------
  // The values the reply schema declares

  /** `'Buy' | 'Sell' | 'Hold' | 'Wait'`. */
  datatype Action = Buy | Sell | Hold | Wait

  function ActionName(a: Action): string {
    match a
    case Buy => "Buy"
    case Sell => "Sell"
    case Hold => "Hold"
    case Wait => "Wait"
  }

  /** The label the dashboard is meant to show for each declared action. */
  function ActionChinese(a: Action): string {
    match a
    case Buy => "买入"
    case Sell => "卖出"
    case Hold => "持有"
    case Wait => "观望"
  }

  /** `'Low' | 'Medium' | 'High' | 'Very High'`. */
  datatype RiskLevel = Low | Medium | High | VeryHigh

  function RiskName(r: RiskLevel): string {
    match r
    case Low => "Low"
    case Medium => "Medium"
    case High => "High"
    case VeryHigh => "Very High"
  }

  function RiskChinese(r: RiskLevel): string {
    match r
    case Low => "低风险"
    case Medium => "中等风险"
    case High => "高风险"
    case VeryHigh => "极高风险"
  }

  // ---------------------------------------------------------------------------
  // Labels

  /** `getActionLabel`: switches on `action?.toLowerCase()`; anything it does
      not recognise, `undefined` included, is returned as it came. */
  function ActionLabel(action: Option<string>): (r: Option<string>)
    ensures action.None? ==> r.None?
    ensures action.Some? ==> r.Some?
    ensures r != action ==> r.value in {"买入", "卖出", "持有", "观望"}
  {
    match action
    case None => None
    case Some(a) =>
      var key := ToLowerAscii(a);
      if key == "buy" then Some("买入")
      else if key == "sell" then Some("卖出")
      else if key == "hold" then Some("持有")
      else if key == "wait" then Some("观望")
      else action
  }

  /** `getRiskLabel`: switches on `level?.toLowerCase()`, like `getActionLabel`. */
  function RiskLabel(level: Option<string>): (r: Option<string>)
    ensures level.None? ==> r.None?
    ensures level.Some? ==> r.Some?
    ensures r != level ==> r.value in {"低风险", "中等风险", "高风险", "极高风险"}
  {
    match level
    case None => None
    case Some(l) =>
      var key := ToLowerAscii(l);
      if key == "low" then Some("低风险")
      else if key == "medium" then Some("中等风险")
      else if key == "high" then Some("高风险")
      else if key == "very high" then Some("极高风险")
      else level
  }

  /** A string that equals a declared action up to ASCII case gets that
      action's Chinese label. */
  lemma ActionLabelRecognised(s: string, a: Action)
    requires ToLowerAscii(s) == ToLowerAscii(ActionName(a))
    ensures ActionLabel(Some(s)) == Some(ActionChinese(a))
  {
    var key := ToLowerAscii(ActionName(a));
    match a
    case Buy => assert key == "buy";
    case Sell => assert key == "sell";
    case Hold => assert key == "hold";
    case Wait => assert key == "wait";
  }

  /** A string that matches no declared action, whatever its case, is shown verbatim. */
  lemma ActionLabelPassThrough(s: string)
    requires forall a: Action :: ToLowerAscii(s) != ToLowerAscii(ActionName(a))
    ensures ActionLabel(Some(s)) == Some(s)
  {
    assert ToLowerAscii(ActionName(Buy)) == "buy";
    assert ToLowerAscii(ActionName(Sell)) == "sell";
    assert ToLowerAscii(ActionName(Hold)) == "hold";
    assert ToLowerAscii(ActionName(Wait)) == "wait";
  }

  /** The labels are fixed points: labelling a label changes nothing. */
  lemma ActionLabelIdempotent(action: Option<string>)
    ensures ActionLabel(ActionLabel(action)) == ActionLabel(action)
  {
    assert ToLowerAscii("买入") == "买入";
    assert ToLowerAscii("卖出") == "卖出";
    assert ToLowerAscii("持有") == "持有";
    assert ToLowerAscii("观望") == "观望";
  }

  lemma RiskLabelRecognised(s: string, r: RiskLevel)
    requires ToLowerAscii(s) == ToLowerAscii(RiskName(r))
    ensures RiskLabel(Some(s)) == Some(RiskChinese(r))
  {
    var key := ToLowerAscii(RiskName(r));
    match r
    case Low => assert key == "low";
    case Medium => assert key == "medium";
    case High => assert key == "high";
    case VeryHigh => assert key == "very high";
  }

  lemma RiskLabelPassThrough(s: string)
    requires forall r: RiskLevel :: ToLowerAscii(s) != ToLowerAscii(RiskName(r))
    ensures RiskLabel(Some(s)) == Some(s)
  {
    assert ToLowerAscii(RiskName(Low)) == "low";
    assert ToLowerAscii(RiskName(Medium)) == "medium";
    assert ToLowerAscii(RiskName(High)) == "high";
    assert ToLowerAscii(RiskName(VeryHigh)) == "very high";
  }

  lemma RiskLabelIdempotent(level: Option<string>)
    ensures RiskLabel(RiskLabel(level)) == RiskLabel(level)
  {
    assert ToLowerAscii("低风险") == "低风险";
    assert ToLowerAscii("中等风险") == "中等风险";
    assert ToLowerAscii("高风险") == "高风险";
    assert ToLowerAscii("极高风险") == "极高风险";
  }

  // ---------------------------------------------------------------------------
  // Colour tones

  datatype Tone = Emerald | Yellow | Rose

  /** The risk badge compares the raw value exactly: `'Low'` is emerald,
      `'Medium'` yellow, anything else rose. */
  function RiskTone(level: string): (t: Tone)
    ensures t == Emerald <==> level == "Low"
    ensures t == Yellow <==> level == "Medium"
  {
    if level == "Low" then Emerald else if level == "Medium" then Yellow else Rose
  }

  /** The advice icon and text compare the raw value exactly: `'Buy'` is
      emerald, `'Sell'` rose, anything else yellow. */
  function ActionTone(action: string): (t: Tone)
    ensures t == Emerald <==> action == "Buy"
    ensures t == Rose <==> action == "Sell"
  {
    if action == "Buy" then Emerald else if action == "Sell" then Rose else Yellow
  }

  /** On the declared values the tones are: low emerald, medium yellow, high
      and very high rose; buy emerald, sell rose, hold and wait yellow. */
  lemma TonesOfDeclaredValues(r: RiskLevel, a: Action)
    ensures RiskTone(RiskName(r)) == (if r == Low then Emerald else if r == Medium then Yellow else Rose)
    ensures ActionTone(ActionName(a)) == (if a == Buy then Emerald else if a == Sell then Rose else Yellow)
  {
  }

  /** The label ignores case but the tone does not: `low` is labelled like
      `Low` and still gets the rose badge. */
  lemma ToneIsCaseSensitive()
    ensures RiskLabel(Some("low")) == RiskLabel(Some("Low")) == Some("低风险")
    ensures RiskTone("low") == Rose && RiskTone("Low") == Emerald
    ensures ActionLabel(Some("buy")) == ActionLabel(Some("Buy")) == Some("买入")
    ensures ActionTone("buy") == Yellow && ActionTone("Buy") == Emerald
  {
    RiskLabelRecognised("low", Low);
    RiskLabelRecognised("Low", Low);
    ActionLabelRecognised("buy", Buy);
    ActionLabelRecognised("Buy", Buy);
  }

  // ---------------------------------------------------------------------------
  // Change values

  /** How a change value is shown: `rising` picks the emerald colour (and, in
      the header, the up-trend icon); `plusSign` prefixes `'+'`. */
  datatype ChangeStyle = ChangeStyle(rising: bool, plusSign: bool)

  /** `value >= 0` for the colour, `value > 0` for the sign. */
  function StyleChange(value: real): (c: ChangeStyle)
    ensures c.rising <==> value >= 0.0
    ensures c.plusSign <==> value > 0.0
  {
    ChangeStyle(value >= 0.0, value > 0.0)
  }

  /** A plus sign only ever appears on a rising value; zero is rising without a sign. */
  lemma SignAgreesWithColour(value: real)
    ensures StyleChange(value).plusSign ==> StyleChange(value).rising
    ensures StyleChange(0.0) == ChangeStyle(true, false)
    ensures value < 0.0 ==> StyleChange(value) == ChangeStyle(false, false)
  {
  }

  /** The header: `isPositive` comes from `changeAmount`, which also colours the
      percentage, while each value decides its own plus sign. */
  datatype Header = Header(isPositive: bool, priceColor: string, amountPlus: bool, percentPlus: bool)

  function HeaderOf(data: StockData): (h: Header)
    ensures h.isPositive == StyleChange(data.changeAmount).rising
    ensures h.amountPlus == StyleChange(data.changeAmount).plusSign
    ensures h.percentPlus == StyleChange(data.changePercent).plusSign
    ensures h.priceColor == (if h.isPositive then "#10b981" else "#f43f5e")
  {
    var positive := data.changeAmount >= 0.0;
    Header(positive, if positive then "#10b981" else "#f43f5e", data.changeAmount > 0.0, data.changePercent > 0.0)
  }

  // ---------------------------------------------------------------------------
  // History table

  /** `[...data.history].reverse()`: a reversed copy; the record's own
      history is a value and cannot change. */
  function NewestFirst(history: seq<StockHistoryItem>): (r: seq<StockHistoryItem>)
    ensures |r| == |history|
    ensures forall i :: 0 <= i < |r| ==> r[i] == history[|history| - 1 - i]
  {
    seq(|history|, i requires 0 <= i < |history| => history[|history| - 1 - i])
  }

  lemma NewestFirstInvolution(history: seq<StockHistoryItem>)
    ensures NewestFirst(NewestFirst(history)) == history
  {
  }

  /** One table row: the bar, whether it carries the `最新` tag, and the style
      of its change percentage. */
  datatype Row = Row(item: StockHistoryItem, latestTag: bool, change: ChangeStyle)

  function TableRows(history: seq<StockHistoryItem>): (rows: seq<Row>)
    ensures |rows| == |history|
    ensures forall i :: 0 <= i < |rows| ==> rows[i].item == NewestFirst(history)[i]
    ensures forall i :: 0 <= i < |rows| ==> (rows[i].latestTag <==> i == 0)
    ensures forall i :: 0 <= i < |rows| ==> rows[i].change == StyleChange(rows[i].item.changePercent)
  {
    var newest := NewestFirst(history);
    seq(|newest|, i requires 0 <= i < |newest| => Row(newest[i], i == 0, StyleChange(newest[i].changePercent)))
  }

  /** With an ascending history, the row tagged `最新` holds the latest date. */
  lemma LatestTagOnLatestDate(history: seq<StockHistoryItem>)
    requires SortedByDate(history) && |history| > 0
    ensures var rows := TableRows(history);
      rows[0].latestTag && forall i :: 0 <= i < |rows| ==> LexLe(rows[i].item.date, rows[0].item.date)
  {
    SortedLastIsLatest(history);
  }

  // ---------------------------------------------------------------------------
  // Citations

  /** `data.sources && data.sources.length > 0`. */
  function ShowSources(sources: Option<seq<GroundingSource>>): (shown: bool)
    ensures shown <==> sources.Some? && sources.value != []
  {
    sources.Some? && |sources.value| > 0
  }
}
