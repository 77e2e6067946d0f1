/** The pure part of `analyzeStock` in `services/gemini.ts`: the date string
    embedded in the request, and the post-processing of the model's reply
    (empty-text check, citation normalisation, fenced-block extraction,
    parsing, `sources` overwrite, history sort). The network call itself is
    outside the model: its reply is the input `Response`, and `JSON.parse` is
    the function parameter `parse`. */
module Gemini {
  import opened Wrappers
  import opened Strings
  import opened Calendar
  import opened Types
  import opened Fence
  import opened HistorySort

  // ---------------------------------------------------------------------------
  // The reply

  /** `chunk.web` of a grounding chunk: a title and a URI, either of which may be missing. */
  datatype Web = Web(title: Option<string>, uri: Option<string>)

  /** A grounding chunk; `web` is `None` when it is `null` or `undefined`. */
  datatype Chunk = Chunk(web: Option<Web>)

  /** What the generation call returns: `response.text`, and
      `response.candidates?.[0]?.groundingMetadata?.groundingChunks`. */
  datatype Response = Response(text: Option<string>, chunks: Option<seq<Chunk>>)

  /** The errors `analyzeStock` throws after the call has returned. */
  datatype AnalyzeError =
    | EmptyResponse             // no text at all
    | NoJsonBlock               // the text has no fenced `json` block
    | JsonSyntax(message: string) // `JSON.parse` threw; its message

  const EmptyResponseMessage: string := "Gemini AI 未返回任何文本响应。请稍后重试。"
  const NoJsonBlockMessage: string := "解析 AI 响应失败。可能是因为没有返回有效的 JSON 格式。"

  /** The `message` of the thrown `Error`. */
  function ErrorMessage(e: AnalyzeError): string {
    match e
    case EmptyResponse => EmptyResponseMessage
    case NoJsonBlock => NoJsonBlockMessage
    case JsonSyntax(m) => m
  }

  // ---------------------------------------------------------------------------
  // The date of the request

  /** `${getFullYear()}-${pad(getMonth() + 1)}-${pad(getDate())}` for the
      local clock's year, zero-based month and day of month. */
  function Today(year: int, month0: int, day: int): (r: string)
    ensures |r| >= |IntToDecimal(year)| + 6
    ensures r[..|IntToDecimal(year)|] == IntToDecimal(year) && r[|IntToDecimal(year)|] == '-'
    ensures 0 <= month0 <= 11 && 1 <= day <= 31 ==> |r| == |IntToDecimal(year)| + 6
  {
    IntToDecimal(year) + "-" + Pad2(month0 + 1) + "-" + Pad2(day)
  }

  /** For a four-digit year and a month and day the clock can report, `Today`
      is an RFC 3339 full-date that reads back as that year, one-based month
      and day. */
  lemma TodayIsFullDate(year: int, month0: int, day: int)
    requires 1000 <= year <= 9999 && 0 <= month0 <= 11 && 1 <= day <= 31
    ensures IsFullDate(Today(year, month0, day))
    ensures ParseFullDate(Today(year, month0, day)) == Date(year, month0 + 1, day)
  {
    var y, m, d := NatToDecimal(year), Pad2(month0 + 1), Pad2(day);
    assert Today(year, month0, day) == y + "-" + m + "-" + d;
    DecimalLength(year);
    DecimalRoundTrip(year);
    FullDateOfFields(y, m, d);
  }

  /** Whatever the year, the month and day fields are exactly two digits. */
  lemma TodayMonthDayFields(year: int, month0: int, day: int)
    requires 0 <= month0 <= 11 && 1 <= day <= 31
    ensures var s := Today(year, month0, day); var n := |IntToDecimal(year)|;
      && |s| == n + 6
      && s[n] == '-' && s[n + 3] == '-'
      && AllDigits(s[n + 1..n + 3]) && DecimalValue(s[n + 1..n + 3]) == month0 + 1
      && AllDigits(s[n + 4..]) && DecimalValue(s[n + 4..]) == day
  {
    var y := IntToDecimal(year);
    var m := Pad2(month0 + 1);
    var d := Pad2(day);
    var s := Today(year, month0, day);
    var n := |y|;
    assert s == y + "-" + m + "-" + d;
    assert s[n + 1..n + 3] == m;
    assert s[n + 4..] == d;
  }

  // ---------------------------------------------------------------------------
  // Citations

  /** `x || fallback` for an optional string: `undefined`, `null` and `""` are falsy. */
  function OrDefault(x: Option<string>, fallback: string): (r: string)
    ensures x.Some? && x.value != "" ==> r == x.value
    ensures x.None? || x.value == "" ==> r == fallback
  {
    if x.Some? && x.value != "" then x.value else fallback
  }

  const DefaultTitle: string := "来源"
  const DefaultUri: string := "#"

  /** `{ title: web.title || "来源", uri: web.uri || "#" }`. */
  function Normalise(w: Web): (g: GroundingSource)
    ensures g.title != "" && g.uri != ""
    ensures w.title.Some? && w.title.value != "" ==> g.title == w.title.value
    ensures w.title.None? || w.title.value == "" ==> g.title == DefaultTitle
    ensures w.uri.Some? && w.uri.value != "" ==> g.uri == w.uri.value
    ensures w.uri.None? || w.uri.value == "" ==> g.uri == DefaultUri
  {
    GroundingSource(OrDefault(w.title, DefaultTitle), OrDefault(w.uri, DefaultUri))
  }

  /** `chunks.map(chunk => chunk.web).filter(web => web != null)`. */
  function WebPayloads(chunks: seq<Chunk>): (r: seq<Web>)
    ensures |r| <= |chunks|
    ensures forall w :: w in r <==> Chunk(Some(w)) in chunks
    decreases |chunks|
  {
    if |chunks| == 0 then []
    else
      var rest := WebPayloads(chunks[1..]);
      assert chunks == [chunks[0]] + chunks[1..];
      match chunks[0].web
      case None => rest
      case Some(w) => [w] + rest
  }

  /** Dropping missing payloads works chunk by chunk: it distributes over
      concatenation, keeps a present payload and drops a missing one. Together
      these say the payloads come out one per web-bearing chunk, in order. */
  lemma {:induction false} WebPayloadsAppend(a: seq<Chunk>, b: seq<Chunk>)
    ensures WebPayloads(a + b) == WebPayloads(a) + WebPayloads(b)
    decreases |a|
  {
    if |a| > 0 {
      assert (a + b)[0] == a[0];
      assert (a + b)[1..] == a[1..] + b;
      WebPayloadsAppend(a[1..], b);
    } else {
      assert a + b == b;
    }
  }

  lemma WebPayloadsSingle(c: Chunk)
    ensures WebPayloads([c]) == (if c.web.Some? then [c.web.value] else [])
  {
  }

  /** The `sources` list: empty without chunks, otherwise one normalised
      citation per chunk that has a web payload, in chunk order. */
  function Sources(chunks: Option<seq<Chunk>>): (r: seq<GroundingSource>)
    ensures chunks.None? ==> r == []
    ensures chunks.Some? ==> |r| == |WebPayloads(chunks.value)|
    ensures chunks.Some? ==> forall i :: 0 <= i < |r| ==> r[i] == Normalise(WebPayloads(chunks.value)[i])
  {
    match chunks
    case None => []
    case Some(cs) =>
      var ws := WebPayloads(cs);
      seq(|ws|, i requires 0 <= i < |ws| => Normalise(ws[i]))
  }

  /** No payload survives exactly when every chunk lacks one. */
  lemma {:induction false} NoPayloadsIff(cs: seq<Chunk>)
    ensures WebPayloads(cs) == [] <==> forall c :: c in cs ==> c.web.None?
    decreases |cs|
  {
    if |cs| > 0 {
      NoPayloadsIff(cs[1..]);
      assert cs == [cs[0]] + cs[1..];
    }
  }

  /** The citation list is empty exactly when there are no chunks or no chunk
      carries a web payload. */
  lemma SourcesEmptyIff(chunks: Option<seq<Chunk>>)
    ensures Sources(chunks) == [] <==> chunks.None? || forall c :: c in chunks.value ==> c.web.None?
  {
    if chunks.Some? {
      NoPayloadsIff(chunks.value);
    }
  }

  // ---------------------------------------------------------------------------
  // The whole post-processing

  /** `data.sources = sources` followed by the history sort. */
  function Finish(data: StockData, sources: seq<GroundingSource>): (r: StockData)
    ensures r.sources == Some(sources)
    ensures r.history.HistoryArray? <==> data.history.HistoryArray?
    ensures data.history.HistoryArray? ==>
      multiset(r.history.items) == multiset(data.history.items) && SortedByDate(r.history.items)
    ensures !data.history.HistoryArray? ==> r.history == data.history
    ensures r == data.(sources := r.sources, history := r.history)
  {
    data.(sources := Some(sources), history := SortHistory(data.history))
  }

  /** The reply handling of `analyzeStock`, from the text check to the returned
      record. The parser is only reached for a non-empty text with a fenced
      block, and there is no check of the parsed record's fields. */
  function AnalyzeResponse(resp: Response, parse: string -> Result<StockData, string>): (r: Result<StockData, AnalyzeError>)
    ensures resp.text.None? || resp.text.value == "" ==> r == Err(EmptyResponse)
    ensures resp.text.Some? && resp.text.value != "" && JsonBlock(resp.text.value).None? ==> r == Err(NoJsonBlock)
    ensures resp.text.Some? && resp.text.value != "" && JsonBlock(resp.text.value).Some? ==>
      match parse(JsonBlock(resp.text.value).value)
      case Err(m) => r == Err(JsonSyntax(m))
      case Ok(data) =>
        && r.Ok?
        && r.value.sources == Some(Sources(resp.chunks))
        && r.value == data.(sources := r.value.sources, history := r.value.history)
        && (data.history.HistoryArray? <==> r.value.history.HistoryArray?)
        && (data.history.HistoryArray? ==>
              multiset(r.value.history.items) == multiset(data.history.items)
              && SortedByDate(r.value.history.items))
        && (!data.history.HistoryArray? ==> r.value.history == data.history)
  {
    if resp.text.None? || resp.text.value == "" then Err(EmptyResponse)
    else
      var sources := Sources(resp.chunks);
      match JsonBlock(resp.text.value)
      case None => Err(NoJsonBlock)
      case Some(body) =>
        match parse(body)
        case Err(m) => Err(JsonSyntax(m))
        case Ok(data) => Ok(Finish(data, sources))
  }

  /** Without a fenced block the parser is never consulted: any two parsers
      give the same failure. */
  lemma ParserNotReachedWithoutBlock(resp: Response, p1: string -> Result<StockData, string>, p2: string -> Result<StockData, string>)
    requires resp.text.Some? && JsonBlock(resp.text.value).None?
    ensures AnalyzeResponse(resp, p1) == AnalyzeResponse(resp, p2)
    ensures AnalyzeResponse(resp, p1).Err?
  {
  }

  /** There is no schema check: every record the parser yields is accepted,
      whatever its history holds (missing, empty, or not an array). */
  lemma AnyParsedRecordAccepted(resp: Response, parse: string -> Result<StockData, string>)
    requires resp.text.Some? && resp.text.value != ""
    requires JsonBlock(resp.text.value).Some? && parse(JsonBlock(resp.text.value).value).Ok?
    ensures AnalyzeResponse(resp, parse).Ok?
  {
  }
}
