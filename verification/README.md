# Running dashboard core, modelled in Dafny

The dashboard shows a runner's training data and offers a chat assistant.
Its logic core has five parts, and this project models each one:

- **Pace parsing** (`parsePaceToSeconds`, module `PaceParser`). A pace text
  like `"07:23"` is split at `:`. The first two fields are read with
  `parseInt`, and the result is `minutes * 60 + seconds`. The value 0 means
  "invalid".
- **Best-pace chart data** (`processRawDataForBestPaceChart`, module
  `PaceChart`). Every run record is mapped to a point with a timestamp and
  a pace. A point is dropped when its date does not parse or its pace is
  not positive. The remaining points are sorted by timestamp.
- **Pace axis labels** (`formatPaceTick`, modules `PaceFormat` and
  `PaceRoundTrip`). A number of seconds is written as `MM:SS`. Reading the
  label back with the pace parser gives the same number.
- **Chat relay** (the `POST` handler of the chat API route, module
  `ChatRoute`). The request body is validated and forwarded to the workflow
  webhook. The reply is relayed back, or the failure is mapped to a status
  code and an error message.
- **Chat widget** (`toggleChat` and `handleSendMessage`, module
  `ChatWidget`). This is the widget state and its transitions. A send is
  split at its `await` into a synchronous start and a completion.

Four support modules give the JavaScript semantics these rely on:

- `Options` provides an optional value.
- `JsStrings` models `trim`, `split` on one character, `includes` and
  `padStart`.
- `JsNumbers` models decimal numerals, `String(n)` on integers, and
  `parseInt(s, 10)`. That covers leading white space, an optional sign, the
  longest digit prefix, and NaN as "none".
- `JsValues` models JavaScript values, truthiness, property access (which
  throws a `TypeError` on `null`/`undefined`), `String(v)`, and completions
  that either return normally or throw.

## Model

| member | source | states |
|---|---|---|
| PaceParser.ParsePaceToSeconds | src/utils/runningDataUtils.ts:13-25 | any input that is not a string reads as the invalid pace 0 |
| PaceParser.InvalidPaceIsZero | src/utils/runningDataUtils.ts:14-16 | null, undefined, the empty string, non-strings and strings without `:` all give 0 |
| PaceParser.NoColonIsZero | src/utils/runningDataUtils.ts:14-16 | a text for which `includes(':')` is false is the invalid pace 0 |
| PaceParser.PaceOfFields | src/utils/runningDataUtils.ts:18-21 | for `a:b` followed by nothing or by more `:`-fields, the result is 0 when either field has no leading integer, and `parseInt(a) * 60 + parseInt(b)` otherwise |
| PaceParser.OnlyFirstTwoFieldsMatter | src/utils/runningDataUtils.ts:18-20 | appending a third or later field never changes the pace |
| PaceParser.EmptySecondsField | src/utils/runningDataUtils.ts:20-21 | `"7:"` and similar texts, where the seconds field is empty, are invalid |
| PaceParser.PaceOfNumerals | src/utils/runningDataUtils.ts:18-21 | two unsigned numerals of any width give `minutes * 60 + seconds`, with no upper bound on the seconds |
| PaceParser.PaceOfNegativeMinutes | src/utils/runningDataUtils.ts:19-21 | a leading minus sign negates only the minutes, so the total can be negative |
| PaceParser.Example443 | src/utils/runningDataUtils.ts:13-25 | `"07:23"` is 443 |
| PaceParser.Example370 | src/utils/runningDataUtils.ts:13-25 | `"06:10"` is 370 |
| PaceParser.Example425 | src/utils/runningDataUtils.ts:18-21 | `"7:5"` is 425, so zero padding is not required |
| PaceParser.Example135 | src/utils/runningDataUtils.ts:18-21 | `"1:75"` is 135, so seconds of 60 or more are accepted |
| PaceParser.ExampleThreeFields | src/utils/runningDataUtils.ts:18-20 | `"1:2:3"` is 62 |
| PaceParser.ExampleLetters | src/utils/runningDataUtils.ts:19-21 | `"abc:10"` is the invalid pace 0 |
| JsStrings.Split | src/utils/runningDataUtils.ts:18 | `split(':')` always gives at least one field |
| JsStrings.SplitFields | src/utils/runningDataUtils.ts:18 | `split` gives one more field than there are separators, and no field holds the separator |
| JsStrings.SplitJoin | src/utils/runningDataUtils.ts:18 | joining the fields of `split` with the separator restores the text |
| JsNumbers.ParseIntOfParts | src/utils/runningDataUtils.ts:19-20 | `parseInt` skips leading white space, takes an optional sign and the longest digit prefix, and gives the signed value of that prefix |
| JsNumbers.ParseInt | src/utils/runningDataUtils.ts:19-20 | `parseInt(s, 10)` reads a number only from a text that holds a decimal digit |
| JsNumbers.ParseIntRejects | src/utils/runningDataUtils.ts:19-21 | white space, an optional sign and then anything but a digit (no second sign or white space after no sign) parse to NaN; with `ParseIntOfParts` every text is classified |
| JsNumbers.ParseIntNoDigits | src/utils/runningDataUtils.ts:19-21 | a text without digits parses to NaN |
| JsNumbers.Decimal | src/components/graphs.tsx:30 | `String(n)` of a natural number is a digit string with value `n` and no leading zero |
| JsNumbers.IntToString | src/components/chatWidget.tsx:89 | `String(n)` of an integer is never empty |
| JsStrings.PadStart2 | src/components/graphs.tsx:30 | `padStart(2, '0')` is as long as the larger of 2 and the length of `s`, ends with `s`, and has only zeros in front of it |
| JsStrings.Trim | src/app/api/chat/route.tsx:22 | `trim()` is the slice of the text between its leading and trailing white space (ECMAScript's WhiteSpace and LineTerminator characters), and it neither starts nor ends with white space |
| JsStrings.TrimEmptyIffAllSpace | src/app/api/chat/route.tsx:22 | `trim()` is empty exactly when the text is all white space |
| JsStrings.TrimIdempotent | src/components/chatWidget.tsx:55 | trimming a trimmed text changes nothing |
| JsStrings.IncludesFound | src/app/api/chat/route.tsx:80 | when `includes` holds, the searched text occurs at a position inside the text |
| JsStrings.IncludesIff | src/app/api/chat/route.tsx:80 | `includes` holds exactly when the searched text occurs at some position, in both directions |
| JsStrings.IncludesOne | src/utils/runningDataUtils.ts:14 | `includes` with a one-character argument is membership of that character |
| JsValues.Truthy | src/app/api/chat/route.tsx:22 | a value is falsy exactly when it is `undefined`, `null`, `false`, `0` or `""` |
| JsValues.ToString | src/components/chatWidget.tsx:92-96 | `String(v)` of a string is itself, of a number reads back with `parseInt`, and of an object is `"[object Object]"` |
| JsNumbers.IntToStringRoundTrip | src/components/graphs.tsx:30 | `parseInt(String(n))` is `n` for every integer `n` |
| JsValues.GetProp | src/utils/runningDataUtils.ts:44-45 | reading a property throws exactly when the record is null or undefined, and the error is a `TypeError`; on an object it yields the field or `undefined` |
| PaceChart.PointOf | src/utils/runningDataUtils.ts:43-56 | the map callback throws a `TypeError` exactly on a null or undefined record, and every point it keeps has a positive pace |
| PaceChart.Survivor | src/utils/runningDataUtils.ts:44-55 | a record yields point `p` exactly when its date parses to `p.timestamp` and its pace parses to the positive `p.bestPaceSeconds` |
| PaceChart.PointOfSurvivor | src/utils/runningDataUtils.ts:43-56 | on a record that is not nullish, the callback returns the point `Survivor` describes |
| PaceChart.MapRuns | src/utils/runningDataUtils.ts:42-56 | `map` throws exactly when some record is nullish; otherwise it keeps the length and the order, with one callback result per record |
| PaceChart.KeepPoints | src/utils/runningDataUtils.ts:57 | the `null` filter keeps exactly the points that were present, and never more than it was given |
| PaceChart.MapThenKeep | src/utils/runningDataUtils.ts:42-57 | mapping and then filtering gives the surviving points of the records, in record order |
| PaceChart.SurvivorsMembers | src/utils/runningDataUtils.ts:42-57 | a point survives exactly when some record yields it |
| PaceChart.Insert | src/utils/runningDataUtils.ts:58 | inserting into a timestamp-sorted list keeps it sorted and adds exactly the one point |
| PaceChart.SortByTimestamp | src/utils/runningDataUtils.ts:58 | the sort result is ordered by timestamp and is a permutation of its input |
| PaceChart.InsertStable | src/utils/runningDataUtils.ts:58 | insertion keeps the relative order of the points that share a timestamp |
| PaceChart.SortStable | src/utils/runningDataUtils.ts:58 | the sort is stable: for every timestamp, the points with it keep their input order |
| PaceChart.SortMembers | src/utils/runningDataUtils.ts:58 | the sort neither adds nor loses points |
| PaceChart.ProcessRawData | src/utils/runningDataUtils.ts:32-59 | null input gives `[]`; the result throws a `TypeError` exactly when some record is nullish; otherwise it is sorted by timestamp and no longer than the input |
| PaceChart.PositivePaces | src/utils/runningDataUtils.ts:48-50 | every charted point has a positive pace |
| PaceChart.ProcessIsSortedSurvivors | src/utils/runningDataUtils.ts:42-58 | the chart data is the stable sort of the surviving points |
| PaceChart.ProcessPermutesSurvivors | src/utils/runningDataUtils.ts:42-58 | the chart data holds the surviving points, each as often as it survives |
| PaceChart.ProcessMembers | src/utils/runningDataUtils.ts:43-58 | a point is charted exactly when some record has a date that parses to its timestamp and a pace that parses to its positive pace |
| PaceChart.ProcessKeepsSameDayOrder | src/utils/runningDataUtils.ts:58 | points with the same timestamp appear in record order |
| PaceChart.OneRow | src/utils/runningDataUtils.ts:42-58 | a single record that is not nullish gives its point when it survives, and nothing otherwise |
| PaceChart.SortShort | src/utils/runningDataUtils.ts:58 | sorting a list of at most one point leaves it as it is |
| PaceChart.ExampleOneRow | src/utils/runningDataUtils.ts:44-55 | a record with pace `"06:10"` and a parsable date gives one point with pace 370 |
| PaceChart.ExampleNullRow | src/utils/runningDataUtils.ts:44 | a `null` record after any runs makes the whole call throw |
| PaceFormat.FormatPaceTick | src/components/graphs.tsx:26-31 | the label is empty exactly for negative input |
| PaceFormat.Clock | src/components/graphs.tsx:30 | the label has at least five characters |
| PaceFormat.PaddedNumeral | src/components/graphs.tsx:30 | a padded numeral is all digits, has the value of the number and at least two characters, and has exactly two when the number is below 100 |
| PaceFormat.Example443 | src/components/graphs.tsx:104-105 | 443 seconds is labelled `"07:23"` |
| PaceRoundTrip.ClockShape | src/components/graphs.tsx:30 | the label is the minutes numeral, a colon and a two-digit seconds numeral |
| PaceRoundTrip.ClockValue | src/components/graphs.tsx:30 | parsing a `minutes:seconds` label as a pace gives `minutes * 60 + seconds` |
| PaceRoundTrip.FormatIsClock | src/components/graphs.tsx:28-30 | the label splits the input into whole minutes and a seconds part below 60 |
| PaceRoundTrip.RoundTrip | src/components/graphs.tsx:26-31 | for every non-negative whole number of seconds, the pace parser reads the label back to that number |
| PaceRoundTrip.FormatShape | src/components/graphs.tsx:28-30 | every label of a non-negative number is `MM:SS` with seconds below 60 |
| PaceRoundTrip.LongMinutes | src/components/graphs.tsx:30 | 100 minutes or more give a label longer than five characters, because the minutes are not truncated |
| ChatRoute.TryBlock | src/app/api/chat/route.tsx:16-75 | the `try` block answers 200, 400, 500 or 502, and 200 exactly with a reply body |
| ChatRoute.JsonSyntaxErrorIff | src/app/api/chat/route.tsx:80 | the catch test holds exactly for a `SyntaxError` whose message contains `"JSON"` at some position |
| ChatRoute.Catch | src/app/api/chat/route.tsx:78-84 | the handler answers 400 exactly for a `SyntaxError` whose message mentions JSON, and 500 for anything else |
| ChatRoute.Post | src/app/api/chat/route.tsx:15-85 | every request is answered with 200, 400, 500 or 502, and with 200 exactly when the body is a reply |
| ChatRoute.ValidMessage | src/app/api/chat/route.tsx:22 | the message check passes exactly for a string that is not all white space |
| ChatRoute.ValidSessionId | src/app/api/chat/route.tsx:25 | the session check passes exactly for a non-empty string |
| ChatRoute.Configured | src/app/api/chat/route.tsx:34 | the webhook URL counts as set exactly when it is present and not empty |
| ChatRoute.PassedChecksNeverBlamed | src/app/api/chat/route.tsx:22-27 | a body that passes both checks is never answered with either check's message |
| ChatRoute.MessageChecked | src/app/api/chat/route.tsx:22-24 | a missing, non-string or blank message gives 400 "Message is required." and nothing is forwarded |
| ChatRoute.SessionChecked | src/app/api/chat/route.tsx:25-27 | with a valid message, a missing or non-string session id gives 400 "Session ID is required." |
| ChatRoute.ConfigurationChecked | src/app/api/chat/route.tsx:32-37 | a valid request with no webhook URL gives 500 "Server configuration error." and nothing is forwarded |
| ChatRoute.SentIffForwards | src/app/api/chat/route.tsx:40-50 | the webhook is called exactly when both fields pass and the URL is set, with the URL, the untrimmed message and the session id |
| ChatRoute.ExampleUntrimmed | src/app/api/chat/route.tsx:46-49 | the message `" hi "` is forwarded as is, with its spaces |
| ChatRoute.WorkflowFailureHidden | src/app/api/chat/route.tsx:55-62 | a non-ok webhook answer gives 502 with the same message, whatever its status and body |
| ChatRoute.SuccessIff | src/app/api/chat/route.tsx:64-75 | the route answers 200 exactly when the webhook answers ok with a truthy JSON body whose `reply` is a string, and it relays that reply |
| ChatRoute.ReplyNotString | src/app/api/chat/route.tsx:67-73 | an ok webhook body with no string `reply` gives 502 "Received invalid response format from backend workflow." |
| ChatRoute.UnreadableRequest | src/app/api/chat/route.tsx:78-84 | when reading the request body throws, nothing is forwarded; a JSON `SyntaxError` gives 400 "Invalid JSON in request body." and anything else gives 500 |
| ChatRoute.NullBody | src/app/api/chat/route.tsx:17-18 | a request body of `null` makes `body.message` throw, which gives 500 |
| ChatRoute.FetchFailure | src/app/api/chat/route.tsx:40-50 | a failed webhook call (a `TypeError`) gives 500 "An internal server error occurred." |
| ChatRoute.UpstreamNotJson | src/app/api/chat/route.tsx:64 | as written, an ok webhook answer that is not JSON gives 400 "Invalid JSON in request body.", after the request was forwarded |
| ChatRoute.ExampleUpstreamHtml | src/app/api/chat/route.tsx:80-81 | an HTML answer from the webhook to a valid request gets the client-error status 400 |
| ChatRoute.CatchIntended | src/app/api/chat/route.tsx:78-84 | 400 is kept for requests that were not forwarded; a JSON error after forwarding gives 502 |
| ChatRoute.PostIntended | src/app/api/chat/route.tsx:15-85 | a 400 answer always means nothing was forwarded |
| ChatRoute.IntendedDiffersOnlyThere | src/app/api/chat/route.tsx:78-83 | the corrected handler differs from the written one exactly on 400 answers given after forwarding |
| ChatRoute.IntendedUpstreamNotJson | src/app/api/chat/route.tsx:64 | in the corrected handler, a non-JSON webhook answer gives 502 "Received invalid response format from backend workflow." |
| ChatWidget.Toggle | src/components/chatWidget.tsx:45-50 | toggling flips `isChatOpen`, clears the error only when opening, and leaves the rest alone |
| ChatWidget.ToggleTwice | src/components/chatWidget.tsx:45-50 | closing and reopening (or the reverse) gives the same state with the error cleared |
| ChatWidget.BeginSend | src/components/chatWidget.tsx:53-68 | a guarded send changes nothing; otherwise the trimmed input is appended as a user message, the input is cleared, loading starts and the error is cleared |
| ChatWidget.RequestFields | src/components/chatWidget.tsx:81-84 | the message sent is trimmed and not empty, and the session id is the widget's |
| ChatWidget.SentRequestPassesChecks | src/components/chatWidget.tsx:81-84 | every request the widget sends passes the route's message and session checks, so the route never answers it with "Message is required." or "Session ID is required." |
| ChatWidget.ErrorResponseMessage | src/components/chatWidget.tsx:88-96 | the error shown is the body's truthy `error` field as a string, and otherwise `Error: <status> <statusText>` |
| ChatWidget.Settle | src/components/chatWidget.tsx:88-113 | the call succeeds exactly when the response is ok with a truthy body whose `reply` is a string, and yields that reply; a failed `fetch` or unreadable ok body rethrows its exception, a non-ok answer throws an `Error` whose message is `ErrorResponseMessage`, and an ok body without a string `reply` throws "Received an unexpected response from the server." |
| ChatWidget.NonOkShown | src/components/chatWidget.tsx:88-96 | for every non-ok answer, the history is unchanged and the error shown is the body's truthy `error` field as a string, or else `Error: <status> <statusText>` |
| ChatWidget.MalformedReplyShown | src/components/chatWidget.tsx:103-113 | for every ok answer whose body has no string `reply`, the history is unchanged and the error is "Received an unexpected response from the server." |
| ChatWidget.CaughtMessage | src/components/chatWidget.tsx:115-122 | an `Error` shows its message; anything else thrown shows the fixed apology |
| ChatWidget.CompleteSend | src/components/chatWidget.tsx:99-126 | the completion appends the AI reply or sets the error, always ends loading, and changes nothing when no request is in flight |
| ChatWidget.ServerErrorShown | src/components/chatWidget.tsx:88-96 | a non-ok answer with an `error` string shows that string |
| ChatWidget.StatusLineShown | src/components/chatWidget.tsx:88-96 | a non-ok answer whose body is not JSON shows the status line |
| ChatWidget.StepAppends | src/components/chatWidget.tsx:65-109 | no event removes or changes an existing message |
| ChatWidget.RunAppends | src/components/chatWidget.tsx:65-109 | the history only grows: every earlier history is a prefix of every later one |
| ChatWidget.Initial | src/components/chatWidget.tsx:25-42 | the mounted widget, with the generated session id and no messages, is consistent and has nothing to send |
| ChatWidget.AppendTrimmed | src/components/chatWidget.tsx:60-65 | appending a trimmed user message, or any AI message, keeps every user message trimmed |
| ChatWidget.SubmitConsistent | src/components/chatWidget.tsx:53-68 | starting a send keeps the widget consistent |
| ChatWidget.AnswerConsistent | src/components/chatWidget.tsx:99-126 | completing a send keeps the widget consistent |
| ChatWidget.StepConsistent | src/components/chatWidget.tsx:45-126 | every event keeps the widget consistent: user messages trimmed, at most one AI message per user message, and while loading no error and a user message last |
| ChatWidget.RunConsistent | src/components/chatWidget.tsx:45-126 | every run of events from a consistent state, such as the mounted one, ends in a consistent widget |
| ChatWidget.CanSend | src/components/chatWidget.tsx:55-57 | a send goes ahead exactly when the input is not all white space, no request is in flight, and the session id is not empty |
| ChatWidget.Step | src/components/chatWidget.tsx:138-188 | typing changes only the input, and not even that while loading (the input is disabled); typing or submitting while the window is closed does nothing (the form exists only when open); typing into the open, idle window sets the input to the typed text; an accepted submit starts loading and adds one message |
| ChatWidget.SubmitWhileLoading | src/components/chatWidget.tsx:57 | submitting while a request is in flight changes nothing |

## Left out

- The data-access layer (the Supabase client and its queries) and the page, sidebar, tabs and header components are not part of this model. They only fetch and lay out data.
- `formatDateTick` and the chart rendering (Recharts, JSX, tooltips) are left out: they are locale formatting and drawing.
- Numbers are unbounded integers. JavaScript's floating point, `NaN` as a number, and `parseInt`'s loss of precision on very long numerals are not modelled. Two consequences for the JavaScript doubles: `String(n)` switches to exponent notation from 10^21 on (`"1e+21"`), and arithmetic on doubles is inexact above 2^53. So the facts about `JsNumbers.Decimal`, `JsNumbers.IntToStringRoundTrip` and `PaceRoundTrip.RoundTrip` hold for the model's integers, and for the source's numbers only below those bounds.
- PaceFormat.FormatPaceTick: models whole seconds only. The `typeof`/`isNaN` guard and `Math.round` of a fractional remainder are left out, because the input type cannot hold non-numbers or fractions.
- Date parsing (`new Date(...)` and `getTime()`) is the parameter `parseDate` of the chart functions. `None` stands for an invalid date.
- The request body, `process.env.N8N_WEBHOOK_URL`, the webhook's `fetch`, and its `json()`/`text()` results are inputs of `ChatRoute.Post`. The content of the error text read at route.tsx:56 is only logged, so only whether it can be read is kept.
- `Date.now()` is the parameter `now`. The session id from `Date.now()` and `Math.random()` is the parameter of `ChatWidget.Initial`.
- All `console` logging, the auto-scroll effect and the widget's markup are left out. The markup's effects are kept as events: the input is disabled while loading, and the form exists only while the window is open.
- Concurrency in the widget is limited to one request in flight, which is what the loading flag allows. React's batching of state updates is not modelled.
- JsValues.GetProp: finds own fields only. Inherited properties such as `toString` are not modelled.
- `String(v)` of an object is the fixed `"[object Object]"`. Custom `toString` methods are not modelled.
- Strings are sequences of code points. UTF-16 surrogate pairs are not distinguished.

Behaviour of the code that its comments do not suggest (the model follows the code):

- The parser's comment calls its input `"MM:SS"` and says invalid input gives 0 (src/utils/runningDataUtils.ts:9-11). Yet seconds of 60 or more are not rejected (`"1:75"` is 135). Signs, extra fields and trailing characters are accepted as `parseInt` accepts them.
- The map callback's comment says invalid entries are skipped (src/utils/runningDataUtils.ts:47). Yet a `null` or `undefined` run record is not skipped: reading its date throws a `TypeError`, which escapes `processRawDataForBestPaceChart`. Non-string date and pace fields are not checked for type: they go to the date parser and to the pace parser (which gives 0).

## Findings

| source | as written | input that shows it | evidently intended | confidence | as-written member | corrected member |
|---|---|---|---|---|---|---|
| src/app/api/chat/route.tsx:64 | the webhook's reply is parsed inside the same `try` as the client's body, and the `catch` at lines 80-81 maps every `SyntaxError` mentioning JSON to 400 "Invalid JSON in request body." | a valid request, forwarded; the webhook answers 200 with the HTML page `<html>`, so `json()` throws `SyntaxError: Unexpected token '<', "<html>" is not valid JSON` | a client error (400) only for the client's own body; a non-JSON webhook answer is a bad upstream answer (502, "Received invalid response format from backend workflow.") | not executed | ChatRoute.UpstreamNotJson | ChatRoute.PostIntended |
