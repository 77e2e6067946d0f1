/** The application shell of `App.tsx`: the request lifecycle
    `idle -> loading -> success | error` driven by `handleSearch`, the inputs
    disabled while a request is in flight, and the panel chosen for each
    status. React's state hooks and the `await` become a synchronous step
    function over events: an edit of the input, a submission, and the
    settling of the one call in flight. */
module App {
  import opened Wrappers
  import opened Strings
  import opened Types
  import opened HistorySort
  import opened Fence
  import opened Gemini
  import opened Dashboard

  const DefaultErrorMessage: string := "分析股票失败，请检查代码或重试。"

  /** `{ status: 'idle', data: null, error: null }`. */
  const InitialState: AnalysisState := AnalysisState(Idle, None, None)

  /** How the awaited `analyzeStock(ticker)` settles: with a record, or with
      an error whose `message` may be missing or empty. */
  datatype Outcome = Resolved(data: StockData) | Rejected(message: Option<string>)

  /** The component: the text of the input, the analysis state, and the ticker
      of the call in flight, if any. */
  datatype Model = Model(ticker: string, state: AnalysisState, pending: Option<string>)

  datatype Event = Edit(text: string) | Submit | Settle(outcome: Outcome)

  const InitialModel: Model := Model("", InitialState, None)

  /** The invariant `AnalysisState` is meant to keep: data exactly on success,
      an error message exactly on error. */
  predicate Consistent(s: AnalysisState) {
    && (s.data.Some? <==> s.status == Success)
    && (s.error.Some? <==> s.status == Error)
  }

  /** The component's invariant: a consistent state, and a call in flight
      exactly while loading. */
  predicate Wellformed(m: Model) {
    Consistent(m.state) && (m.pending.Some? <==> m.state.status == Loading)
  }

  /** `disabled={state.status === 'loading'}` on both the input and the button. */
  function ControlsDisabled(s: AnalysisState): bool {
    s.status == Loading
  }

  /** `err.message || "分析股票失败，请检查代码或重试。"`. */
  function ErrorText(message: Option<string>): (r: string)
    ensures r != ""
    ensures message.Some? && message.value != "" ==> r == message.value
    ensures message.None? || message.value == "" ==> r == DefaultErrorMessage
  {
    if message.Some? && message.value != "" then message.value else DefaultErrorMessage
  }

  /** `handleSearch` up to the `await`: a ticker that trims to nothing changes
      nothing; otherwise the state becomes loading and `analyzeStock` is called
      with the ticker as typed, untrimmed. */
  function HandleSearch(m: Model): (r: Model)
    ensures IsBlank(m.ticker) ==> r == m
    ensures !IsBlank(m.ticker) ==> r == Model(m.ticker, AnalysisState(Loading, None, None), Some(m.ticker))
  {
    TrimEmptyIffBlank(m.ticker);
    if Trim(m.ticker) == "" then m
    else m.(state := AnalysisState(Loading, None, None), pending := Some(m.ticker))
  }

  /** `handleSearch` after the `await`: the state for the settled call. */
  function Settled(outcome: Outcome): (s: AnalysisState)
    ensures Consistent(s)
    ensures outcome.Resolved? ==> s == AnalysisState(Success, Some(outcome.data), None)
    ensures outcome.Rejected? ==> s.status == Error && s.data.None? && s.error == Some(ErrorText(outcome.message))
  {
    match outcome
    case Resolved(d) => AnalysisState(Success, Some(d), None)
    case Rejected(msg) => AnalysisState(Error, None, Some(ErrorText(msg)))
  }

  /** One event. Edits and submissions are ignored while loading, because the
      input and the button are disabled then; a settling call replaces the
      whole state. */
  function Step(m: Model, e: Event): (r: Model)
    ensures Wellformed(m) ==> Wellformed(r)
    ensures ControlsDisabled(m.state) && !e.Settle? ==> r == m
    ensures !ControlsDisabled(m.state) && e.Submit? ==> r == HandleSearch(m)
    ensures !ControlsDisabled(m.state) && e.Edit? ==> r == m.(ticker := e.text)
    ensures e.Settle? ==> r.ticker == m.ticker
    ensures e.Settle? && m.pending.Some? ==> r.state == Settled(e.outcome) && r.pending.None?
    ensures e.Settle? && m.pending.None? ==> r == m
  {
    match e
    case Edit(text) => if ControlsDisabled(m.state) then m else m.(ticker := text)
    case Submit => if ControlsDisabled(m.state) then m else HandleSearch(m)
    case Settle(outcome) =>
      if m.pending.Some? then m.(state := Settled(outcome), pending := None) else m
  }

  /** The model after a sequence of events. The state only ever changes
      through a search: with no call in flight and no submission among the
      events, edits move the ticker and nothing else. */
  function Run(m: Model, events: seq<Event>): (r: Model)
    ensures |events| == 0 ==> r == m
    ensures m.pending.None? && (forall i :: 0 <= i < |events| ==> !events[i].Submit?) ==>
      r.state == m.state && r.pending.None?
    decreases |events|
  {
    if |events| == 0 then m else Run(Step(m, events[0]), events[1..])
  }

  /** The first render: an empty input, an idle, consistent state, no call in
      flight, enabled controls and the idle prompt. */
  lemma InitialModelWellformed()
    ensures InitialModel.ticker == "" && InitialModel.pending.None?
    ensures Wellformed(InitialModel) && !ControlsDisabled(InitialModel.state)
    ensures Panels(InitialModel.state) == [IdlePrompt]
  {
  }

  /** Every state reachable from a well-formed one is well-formed. */
  lemma {:induction false} RunKeepsWellformed(m: Model, events: seq<Event>)
    requires Wellformed(m)
    ensures Wellformed(Run(m, events))
    decreases |events|
  {
    if |events| > 0 {
      RunKeepsWellformed(Step(m, events[0]), events[1..]);
    }
  }

  /** Every state the component ever holds keeps data and error tied to the status. */
  lemma ReachableStatesConsistent(events: seq<Event>)
    ensures Consistent(Run(InitialModel, events).state)
  {
    RunKeepsWellformed(InitialModel, events);
  }

  /** While a call is in flight no further submission starts one, whatever the
      user does before it settles. */
  lemma {:induction false} NoSecondCallWhileLoading(m: Model, events: seq<Event>)
    requires ControlsDisabled(m.state)
    requires forall i :: 0 <= i < |events| ==> !events[i].Settle?
    ensures Run(m, events) == m
    decreases |events|
  {
    if |events| > 0 {
      NoSecondCallWhileLoading(m, events[1..]);
    }
  }

  // ---------------------------------------------------------------------------
  // What is rendered

  datatype Panel = IdlePrompt | ErrorPanel(message: Option<string>) | Skeleton | DashboardPanel(data: StockData)

  /** The four independent conditional blocks of the content area, in order. */
  function Panels(s: AnalysisState): (ps: seq<Panel>)
    ensures |ps| <= 1
    ensures |ps| == 0 <==> s.status == Success && s.data.None?
    ensures |ps| == 1 && ps[0].DashboardPanel? <==> s.status == Success && s.data.Some?
    ensures |ps| == 1 && ps[0].DashboardPanel? ==> s.data == Some(ps[0].data)
    ensures |ps| == 1 && ps[0].ErrorPanel? <==> s.status == Error
  {
    (if s.status == Idle then [IdlePrompt] else [])
    + (if s.status == Error then [ErrorPanel(s.error)] else [])
    + (if s.status == Loading then [Skeleton] else [])
    + (if s.status == Success && s.data.Some? then [DashboardPanel(s.data.value)] else [])
  }

  /** In a consistent state exactly one panel shows; the dashboard shows exactly
      on success, with the state's data, and the error panel exactly on error,
      with a message. */
  lemma PanelsOfConsistentState(s: AnalysisState)
    requires Consistent(s)
    ensures |Panels(s)| == 1
    ensures Panels(s)[0].DashboardPanel? <==> s.status == Success
    ensures Panels(s)[0].DashboardPanel? ==> Some(Panels(s)[0].data) == s.data
    ensures Panels(s)[0].ErrorPanel? <==> s.status == Error
    ensures Panels(s)[0].ErrorPanel? ==> Panels(s)[0].message.Some?
  {
  }

  // ---------------------------------------------------------------------------
  // A search from end to end

  /** How `analyzeStock` settles for a given reply. */
  function OutcomeOf(r: Result<StockData, AnalyzeError>): (o: Outcome)
    ensures r.Ok? ==> o == Resolved(r.value)
    ensures r.Err? ==> o == Rejected(Some(ErrorMessage(r.error)))
  {
    match r
    case Ok(d) => Resolved(d)
    case Err(e) => Rejected(Some(ErrorMessage(e)))
  }

  /** Submitting a ticker and receiving a reply: an empty reply ends in the
      empty-reply message, a reply without a fenced block in the format
      message, a parser failure in the parser's message (or the default when
      that is empty), and a parsed reply in success with the post-processed
      record. */
  lemma SearchOutcome(m: Model, resp: Response, parse: string -> Result<StockData, string>)
    requires Wellformed(m) && !ControlsDisabled(m.state) && !IsBlank(m.ticker)
    ensures var s := Run(m, [Submit, Settle(OutcomeOf(AnalyzeResponse(resp, parse)))]).state;
      && (resp.text.None? || resp.text.value == "" ==> s == AnalysisState(Error, None, Some(EmptyResponseMessage)))
      && (resp.text.Some? && resp.text.value != "" && JsonBlock(resp.text.value).None? ==>
            s == AnalysisState(Error, None, Some(NoJsonBlockMessage)))
      && (forall msg :: AnalyzeResponse(resp, parse) == Err(JsonSyntax(msg)) ==>
            s == AnalysisState(Error, None, Some(ErrorText(Some(msg)))))
      && (AnalyzeResponse(resp, parse).Ok? ==> s == AnalysisState(Success, Some(AnalyzeResponse(resp, parse).value), None))
  {
    var r := AnalyzeResponse(resp, parse);
    var o := OutcomeOf(r);
    var m1 := Step(m, Submit);
    assert m1.pending == Some(m.ticker);
    var m2 := Step(m1, Settle(o));
    assert m2.state == Settled(o);
    var events := [Submit, Settle(o)];
    assert events[1..] == [Settle(o)];
    assert Run(m1, [Settle(o)]) == Run(m2, []) == m2;
    assert Run(m, events) == m2;
  }

  /** After a successful analysis the dashboard lists citations exactly when
      some grounding chunk carried a web payload. */
  lemma SourcesShownIffWebChunk(resp: Response, parse: string -> Result<StockData, string>)
    ensures AnalyzeResponse(resp, parse).Ok? ==>
      (ShowSources(AnalyzeResponse(resp, parse).value.sources)
       <==> resp.chunks.Some? && exists c :: c in resp.chunks.value && c.web.Some?)
  {
    SourcesEmptyIff(resp.chunks);
  }

  /** After a successful analysis with a non-empty history array, the table row
      tagged `最新` holds the latest date of every bar of the reply. */
  lemma LatestRowAfterAnalysis(resp: Response, parse: string -> Result<StockData, string>)
    requires AnalyzeResponse(resp, parse).Ok?
    requires AnalyzeResponse(resp, parse).value.history.HistoryArray?
    requires |AnalyzeResponse(resp, parse).value.history.items| > 0
    ensures var items := AnalyzeResponse(resp, parse).value.history.items;
      var rows := TableRows(items);
      rows[0].latestTag && forall i :: 0 <= i < |items| ==> LexLe(items[i].date, rows[0].item.date)
  {
    var items := AnalyzeResponse(resp, parse).value.history.items;
    LatestTagOnLatestDate(items);
  }
}
