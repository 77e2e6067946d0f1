# Gemini stock analysis dashboard — a Dafny model of its logic

The application asks a generative-AI service, with web search enabled, for
an analysis of a stock ticker. It then turns the free-text reply into a
`StockData` record and renders that record as a dashboard. The network call
is the only thing that does real work. Around it there is a little pure logic,
and that is what this project models and proves things about:

- **Reply post-processing in `analyzeStock`** (`services/gemini.ts`):
  - an empty reply text is rejected;
  - grounding citations are normalised: chunks without a `web` payload are
    dropped, and a falsy title or URI gets a default;
  - the first ```` ```json\n … \n``` ```` fenced block is extracted and parsed;
  - `sources` is overwritten with the citations;
  - an array `history` is sorted ascending by `date`;
  - the "today" date string is built for the prompt.
- **Display helpers** (`components/StockDashboard.tsx`, `components/PriceChart.tsx`):
  - the Chinese action and risk labels and the colour tones;
  - the sign and colour of change values;
  - the newest-first history table and the guard on the citation list;
  - the chart's placeholder branch, its Y-axis domain and its date ticks.
- **The request lifecycle of `App.tsx`**:
  - `idle → loading → success | error`;
  - the blank-ticker guard and the default error message;
  - the controls disabled while loading;
  - the panel shown for each status;
  - the invariant tying `data` and `error` to `status`.

Modules, one per source file or shared concern:

| file | module | models |
|---|---|---|
| `wrappers.dfy` | `Wrappers` | `Option` (`null`/`undefined` or a value), `Result` (a value or a thrown error) |
| `strings.dfy` | `Strings` | runtime string primitives: ASCII lower-casing, `indexOf`, code-point order, `String(n)`, `padStart`, `trim` |
| `calendar.dfy` | `Calendar` | the `full-date` grammar of section 5.6 of RFC 3339, with the day of month 01-31 |
| `types.dfy` | `Types` | the records of `types.ts` |
| `fence.dfy` | `Fence` | the fenced-block regular expression |
| `history_sort.dfy` | `HistorySort` | the history sort |
| `gemini.dfy` | `Gemini` | `analyzeStock` after the call returns, and the date string |
| `dashboard.dfy` | `Dashboard` | `StockDashboard` |
| `price_chart.dfy` | `PriceChart` | `PriceChart` |
| `app.dfy` | `App` | `App` and `handleSearch`, plus lemmas that follow a search end to end |

How the outside world enters the model:

- The AI service's reply is an input value, `Response(text, chunks)`.
- `JSON.parse` is a function parameter, `parse: string -> Result<StockData, string>`.
  It may fail with a message, or it may yield any record at all.
- The local clock becomes the parameters `year`, `month0` and `day` of `Today`.
- React state and `await` become a step function `App.Step` over three events.
  The events are an edit of the input, a submission, and the settling of the
  call in flight.

What the code does after the reply arrives:

- The code does no schema validation after `JSON.parse`: `services/gemini.ts:106`
  is a bare cast. A record with a missing, empty or non-array `history` is
  accepted, and dates that are not `YYYY-MM-DD` are sorted like any other
  strings (`Gemini.AnyParsedRecordAccepted`).
- The errors are plain `Error`s told apart only by their message. A
  `JSON.parse` failure propagates with the parser's own message.
- The default citation title is `来源`.

## Model

| member | source | states |
|---|---|---|
| `Strings.ToLowerAscii` | components/StockDashboard.tsx:26-37 | `toLowerCase()` keeps the length and lowercases each ASCII letter in place, leaving every other character alone |
| `Strings.IndexOfFrom` | services/gemini.ts:99 | the fence search's substring step: the result is the first occurrence at or after `from`; `None` means there is none |
| `Strings.LexLeTotal` | services/gemini.ts:112 | the date comparison orders any two dates one way or the other |
| `Strings.LexLeTransitive` | services/gemini.ts:112 | the date comparison is transitive |
| `Strings.LexLeAntisymmetric` | services/gemini.ts:112 | two dates that compare both ways are equal |
| `Strings.LexLeReflexive` | services/gemini.ts:112 | every date compares equal to itself |
| `Strings.NatToDecimal` | services/gemini.ts:61 | `String(n)` is a non-empty string of digits with no leading zero |
| `Strings.DecimalRoundTrip` | services/gemini.ts:61 | reading the digits of `String(n)` back gives `n` |
| `Strings.DecimalLength` | services/gemini.ts:61 | `String(n)` has one digit below 10, two for 10..99 and four for 1000..9999 |
| `Strings.PadStart` | services/gemini.ts:61 | `padStart` leaves a long enough string alone; otherwise it fills on the left up to the width and keeps the string as the suffix |
| `Strings.TrimStart` | App.tsx:17 | drops exactly a blank prefix, and the result does not start with whitespace |
| `Strings.TrimEnd` | App.tsx:17 | drops exactly a blank suffix, and the result does not end with whitespace |
| `Strings.Trim` | App.tsx:17 | `ticker.trim()` is never longer than the ticker, is empty exactly when the ticker is all whitespace, and neither starts nor ends with whitespace |
| `Strings.TrimEmptyIffBlank` | App.tsx:17 | `ticker.trim()` is empty exactly when every character of the ticker is JavaScript whitespace |
| `Calendar.Pad2` | services/gemini.ts:61 | `String(n).padStart(2, '0')` keeps a decimal form of two or more characters; for 0..99 it is exactly two digits that read back as `n` |
| `Calendar.PadStartTwoDigits` | services/gemini.ts:61 | padding the decimal form of 0..99 to width two with `'0'` gives two digits that read back as the number |
| `Fence.MatchFrom` | services/gemini.ts:99 | the regex engine's scan: it finds the leftmost opener that has a closer after it, and the first closer after that opener; `None` means no such pair from the start position on |
| `Fence.FindBlock` | services/gemini.ts:99-103 | the match has no match starting further left and ends at the first closer after its opener; there is no match exactly when no opener is followed by a closer |
| `Fence.JsonBlock` | services/gemini.ts:99-105 | the capture is missing exactly when no opener is followed by a closer |
| `Fence.BodyHasNoCloser` | services/gemini.ts:99 | the captured body never contains `\n```` |
| `Fence.BlockStartsAtFirstOpener` | services/gemini.ts:99 | the match starts at the first `` ```json\n `` of the whole text |
| `Fence.NoOpenerNoBlock` | services/gemini.ts:99-103 | text without `` ```json\n `` has no block, so an untagged fence or CR LF after `json` has none |
| `Fence.NoCloserNoBlock` | services/gemini.ts:99-103 | text whose first opener has no later closer has no block |
| `Fence.WrapThenExtract` | services/gemini.ts:99-105 | round trip: a body without a closer, wrapped in fences after a prefix without an opener, is captured back exactly, whatever follows |
| `HistorySort.Insert` | services/gemini.ts:112 | inserting one bar into an ascending history gives an ascending permutation of the history plus that bar |
| `HistorySort.SortByDate` | services/gemini.ts:112 | the sorted history is a permutation of the input and ascending by date |
| `HistorySort.SortKeepsSorted` | services/gemini.ts:112 | an already ascending history is left exactly as it is |
| `HistorySort.SortIdempotent` | services/gemini.ts:112 | sorting twice is the same as sorting once |
| `HistorySort.SortedLastIsLatest` | services/gemini.ts:110-113 | in an ascending history the last bar has the latest date |
| `HistorySort.SortedEndsWithLatest` | services/gemini.ts:110-113 | the sorted history keeps the length, and its last bar is at least as late as every input bar |
| `HistorySort.SortHistory` | services/gemini.ts:110-113 | an array history becomes an ascending permutation of itself; a missing or non-array history is left untouched and raises no error |
| `Gemini.Today` | services/gemini.ts:61 | the date string starts with `String(year)` and a hyphen; for a month 0..11 and day 1..31 it is exactly six characters longer than the year |
| `Gemini.TodayIsFullDate` | services/gemini.ts:61 | for a four-digit year, month 0..11 and day 1..31, the date string matches the RFC 3339 full-date grammar (day 01-31) and reads back as the year, month + 1 and day |
| `Gemini.TodayMonthDayFields` | services/gemini.ts:61 | for any year, the month and day parts are exactly two digits with the values month + 1 and day |
| `Gemini.OrDefault` | services/gemini.ts:93-94 | a present non-empty value is kept verbatim; `undefined`, `null` and `""` give the fallback |
| `Gemini.Normalise` | services/gemini.ts:92-95 | a citation never has an empty title or URI: a non-empty title or URI is kept verbatim, a missing or empty one becomes `来源` or `#` |
| `Gemini.WebPayloads` | services/gemini.ts:89-91 | keeps exactly the chunks' non-null `web` payloads, and never more than there are chunks |
| `Gemini.WebPayloadsAppend` | services/gemini.ts:89-91 | dropping missing payloads distributes over concatenation, so payloads map one per chunk in chunk order |
| `Gemini.NoPayloadsIff` | services/gemini.ts:89-91 | no payload survives exactly when every chunk lacks one |
| `Gemini.Sources` | services/gemini.ts:86-96 | without chunks the list is `[]`; otherwise it has one normalised citation per web payload, in order |
| `Gemini.SourcesEmptyIff` | services/gemini.ts:86-96 | the citation list is empty exactly when there are no chunks or no chunk has a web payload |
| `Gemini.Finish` | services/gemini.ts:108-113 | `sources` becomes the given citations; an array history becomes an ascending permutation of itself, any other history is kept; every other field is unchanged |
| `Gemini.AnalyzeResponse` | services/gemini.ts:79-115 | see the note under the table |
| `Gemini.ParserNotReachedWithoutBlock` | services/gemini.ts:99-106 | without a fenced block the result fails the same way for every parser, so the parser is never reached |
| `Gemini.AnyParsedRecordAccepted` | services/gemini.ts:106-115 | every record the parser yields is accepted; there is no schema check |
| `Dashboard.ActionLabel` | components/StockDashboard.tsx:26-34 | a missing action stays missing; a present one is either returned as it is or replaced by one of `买入`/`卖出`/`持有`/`观望` |
| `Dashboard.ActionLabelRecognised` | components/StockDashboard.tsx:26-31 | `Buy`/`Sell`/`Hold`/`Wait` in any ASCII case get `买入`/`卖出`/`持有`/`观望` |
| `Dashboard.ActionLabelPassThrough` | components/StockDashboard.tsx:32 | a string matching no declared action in any case is shown unchanged |
| `Dashboard.ActionLabelIdempotent` | components/StockDashboard.tsx:26-33 | labelling a label changes nothing |
| `Dashboard.RiskLabel` | components/StockDashboard.tsx:37-45 | a missing level stays missing; a present one is either returned as it is or replaced by one of the four Chinese risk labels |
| `Dashboard.RiskLabelRecognised` | components/StockDashboard.tsx:37-42 | `Low`/`Medium`/`High`/`Very High` in any ASCII case get the four Chinese risk labels |
| `Dashboard.RiskLabelPassThrough` | components/StockDashboard.tsx:43 | a string matching no declared level in any case is shown unchanged |
| `Dashboard.RiskLabelIdempotent` | components/StockDashboard.tsx:37-44 | labelling a label changes nothing |
| `Dashboard.RiskTone` | components/StockDashboard.tsx:136-138 | emerald exactly for `'Low'`, yellow exactly for `'Medium'`, otherwise rose |
| `Dashboard.ActionTone` | components/StockDashboard.tsx:183-184 | emerald exactly for `'Buy'`, rose exactly for `'Sell'`, otherwise yellow (the same test is repeated at lines 192-193) |
| `Dashboard.TonesOfDeclaredValues` | components/StockDashboard.tsx:136-138 | on the declared values: low emerald, medium yellow, high and very high rose; buy emerald, sell rose, hold and wait yellow |
| `Dashboard.ToneIsCaseSensitive` | components/StockDashboard.tsx:136-139 | `low` gets the same label as `Low` but the rose badge; `buy` gets the same label as `Buy` but the yellow tone |
| `Dashboard.StyleChange` | components/StockDashboard.tsx:247-248 | rising colour exactly when the value is `>= 0`, plus sign exactly when it is `> 0` |
| `Dashboard.SignAgreesWithColour` | components/StockDashboard.tsx:72-73 | a plus sign only appears on a rising value; zero is rising with no sign; a negative value is neither |
| `Dashboard.HeaderOf` | components/StockDashboard.tsx:22-23 | `isPositive` and the chart colour follow `changeAmount >= 0`; each of amount and percentage decides its own plus sign |
| `Dashboard.NewestFirst` | components/StockDashboard.tsx:48 | the table order is the exact reverse of the history |
| `Dashboard.NewestFirstInvolution` | components/StockDashboard.tsx:48 | reversing twice gives the history back |
| `Dashboard.TableRows` | components/StockDashboard.tsx:237-248 | one row per bar in newest-first order; only row 0 carries the `最新` tag; each row is styled by its own change percentage |
| `Dashboard.LatestTagOnLatestDate` | components/StockDashboard.tsx:237-244 | with an ascending history, the tagged row has the latest date |
| `Dashboard.ShowSources` | components/StockDashboard.tsx:264 | the citation block shows exactly when `sources` is present and non-empty |
| `PriceChart.Closes` | components/PriceChart.tsx:28 | one price per bar, the bar's close |
| `PriceChart.MinOf` | components/PriceChart.tsx:29 | `Math.min` of the closes is one of them and is at most every one |
| `PriceChart.MaxOf` | components/PriceChart.tsx:30 | `Math.max` of the closes is one of them and is at least every one |
| `PriceChart.Chart` | components/PriceChart.tsx:19-31 | missing or empty data gives the placeholder, with no minimum or maximum taken; otherwise min and max are closes bounding every close, the padding is a non-negative tenth of the range, and the domain encloses every close |
| `PriceChart.FormatDateTick` | components/PriceChart.tsx:34-43 | a string of length 10 or more gives its characters 5..9, which are five characters; a shorter one is returned unchanged |
| `PriceChart.TickOfFullDate` | components/PriceChart.tsx:33-37 | on a `YYYY-MM-DD` date the tick is `MM-DD`, with that month and day |
| `App.InitialModelWellformed` | App.tsx:8-13 | the first render (`InitialModel`, with `InitialState`): empty ticker, `{idle, null, null}`, no call in flight, enabled controls, and only the idle prompt shows |
| `App.ControlsDisabled` | App.tsx:58-62 | a definition without a contract of its own: the input and the button are disabled exactly while the status is loading; `App.Step` and `App.NoSecondCallWhileLoading` state what that blocks |
| `App.ErrorText` | App.tsx:28 | the error shown is never empty: `err.message` when non-empty, else the default Chinese message |
| `App.HandleSearch` | App.tsx:15-22 | a ticker that trims to nothing changes nothing and starts no call; otherwise the state is `{loading, null, null}` and the call gets the untrimmed ticker |
| `App.Settled` | App.tsx:23-29 | success stores the record with no error; failure stores no data and the error text; both are consistent states |
| `App.Step` | App.tsx:15-31 | every event keeps the component well-formed; while loading (input and button disabled, App.tsx:58,62) edits and submissions change nothing; otherwise a submission is `handleSearch` and an edit sets only the ticker; a settle keeps the ticker, replaces the state of a pending call and changes nothing when no call is pending |
| `App.Run` | App.tsx:15-31 | no events change nothing; with no call in flight and no submission among the events, the state stays as it is and no call starts |
| `App.RunKeepsWellformed` | App.tsx:9-29 | every state reachable from a well-formed one is well-formed |
| `App.ReachableStatesConsistent` | App.tsx:9-29 | every state the component ever holds has data exactly on success and an error exactly on error |
| `App.NoSecondCallWhileLoading` | App.tsx:58-62 | while loading, no sequence of edits and submissions changes anything or starts a second call |
| `App.Panels` | App.tsx:81-114 | at most one panel shows; the dashboard shows exactly when the status is success and data is non-null, and with that data; the error panel shows exactly on error; nothing shows on success without data |
| `App.PanelsOfConsistentState` | App.tsx:81-114 | in a consistent state exactly one panel shows; the dashboard shows exactly on success, with the state's data; the error panel shows exactly on error, with a message |
| `App.OutcomeOf` | services/gemini.ts:117-120 | a failure settles as a rejection carrying the error's message; a success settles with the record |
| `App.SearchOutcome` | App.tsx:19-29 | submit then settle: an empty reply ends in the empty-reply message, a reply without a block ends in the format message, a parser failure ends in the error state with the parser's message (or the default when it is empty), and a successful analysis ends in success with that record |
| `App.SourcesShownIffWebChunk` | components/StockDashboard.tsx:264 | whenever the analysis succeeds, citations are listed exactly when some grounding chunk had a web payload |
| `App.LatestRowAfterAnalysis` | components/StockDashboard.tsx:237-244 | after a successful analysis with a non-empty history, the row tagged `最新` has the latest date of the returned history |

Note on `Gemini.AnalyzeResponse`. Its contract states:

- no text or empty text fails with the empty-reply error, before anything else;
- a text without a fenced block fails with the format error;
- a parser failure fails with the parser's message;
- otherwise the result is the parsed record, with two changes:
  - `sources` is replaced by the normalised citations;
  - `history` is sorted if it is an array, and left as it is otherwise.

  Every other field is unchanged.

## Left out

- The AI client, the API key and `generateContent` are foreign network I/O. So
  are the prompt and system-instruction texts, which are natural-language
  prose. The reply is an input value instead. A transport failure reaches the
  app only as a rejected outcome with some message.
- `JSON.parse` is a library parser. It is the parameter `parse`. If it yields
  `null` or a primitive, the assignment to `data.sources` would throw a
  `TypeError`. The model's parser yields records only.
- `HistorySort.SortByDate`: stability is not stated as a contract. The sort is
  written as a stable insertion sort, as `Array.prototype.sort` is, but only
  "permutation" and "ascending" are proved. Bars with the same date may
  therefore appear in any order as far as the contract says.
- `HistorySort.SortByDate`: `localeCompare` is locale-dependent. It is modelled
  as code-point lexicographic order, which agrees with it on fixed-width ISO dates.
- `HistorySort.SortByDate`: a history element without a string `date` would make
  the comparator throw. History elements always carry a date in the model.
- `Strings.ToLowerAscii`: `toLowerCase` does full Unicode case mapping. The
  model lowercases ASCII letters only.
- Strings are sequences of Unicode scalar values, not UTF-16 code units. Length,
  `substring` and ordering therefore differ from JavaScript for characters
  outside the Basic Multilingual Plane.
- `toFixed` and other number formatting are float formatting, so they are not
  modelled. Prices are exact `real`s, and the chart padding is an exact tenth:
  only ordering facts are claimed, not float rounding.
- `Gemini.TodayIsFullDate`: years outside 1000..9999 are excluded, because
  `String(year)` is not padded. For such years the string is not a full-date.
  `Gemini.TodayMonthDayFields` covers the month and day parts for every year.
- `new Date()` is read from the clock; it becomes parameters. `console.error`
  is logging. Neither is modelled.
- `PriceChart.FormatDateTick`: ticks are modelled as strings. A `null` or
  `undefined` tick would make `.length` throw and the `catch` return it; a number
  has no `length`, fails the test and is returned as it is.
- A parsed record always carries every analysis section: a record without one,
  which the unchecked cast would let through, is not representable in the model.
- `Calendar.IsFullDate` checks the day of month against 01-31 only, not the
  per-month and leap-year limit of section 5.7 of RFC 3339, so `2023-02-31`
  passes. The clock never produces such a date.
- The dashboard helpers take the history as a sequence. A record whose `history`
  is not an array would make the spread at `StockDashboard.tsx:48` throw or
  misbehave at render time; that is not modelled.
- All JSX layout, the Tailwind classes, the recharts and lucide components, and
  the whole of `components/AnalysisCard.tsx` are pure presentation.
