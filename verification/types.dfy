/** The records of `types.ts`. Prices are exact reals; the enumerated
    `riskLevel` and `action` are free strings, since the parsed payload is
    never checked against the declared union types. */
module Types {
  import opened Wrappers

  /** One daily bar of the price history. */
  datatype StockHistoryItem = StockHistoryItem(
    date: string,
    open: real,
    close: real,
    high: real,
    low: real,
    changePercent: real,
    volume: string,
    turnover: string,
    turnoverRate: string)

  /** One grounding citation as shown under "data sources". */
  datatype GroundingSource = GroundingSource(title: string, uri: string)

  datatype TrendAnalysis = TrendAnalysis(summary: string, supportLevels: seq<string>, resistanceLevels: seq<string>)

  datatype VolumeAnalysis = VolumeAnalysis(volume: string, assessment: string)

  datatype RiskAssessment = RiskAssessment(volatility: string, riskLevel: string, description: string)

  datatype PriceTargets = PriceTargets(shortTerm: string, midTerm: string)

  datatype TechnicalLevels = TechnicalLevels(summary: string, indicators: seq<string>)

  datatype TradingAdvice = TradingAdvice(action: string, entryZone: string, stopLoss: string, rationale: string)

  /** The `history` member of a parsed reply. The declared type is an array,
      but nothing checks it: the member may be missing (or falsy) or hold some
      other JSON value, kept here as its JSON text. */
  datatype History = HistoryArray(items: seq<StockHistoryItem>) | Absent | NotAnArray(json: string)

  /** `StockData`: the parsed reply of the model, with the citations attached. */
  datatype StockData = StockData(
    symbol: string,
    companyName: string,
    currentPrice: real,
    currency: string,
    changeAmount: real,
    changePercent: real,
    lastUpdated: string,
    history: History,
    trendAnalysis: TrendAnalysis,
    volumeAnalysis: VolumeAnalysis,
    riskAssessment: RiskAssessment,
    priceTargets: PriceTargets,
    technicalLevels: TechnicalLevels,
    tradingAdvice: TradingAdvice,
    sources: Option<seq<GroundingSource>>)

  datatype Status = Idle | Loading | Success | Error

  /** `AnalysisState`: the application's one piece of state; `None` stands for `null`. */
  datatype AnalysisState = AnalysisState(status: Status, data: Option<StockData>, error: Option<string>)
}
