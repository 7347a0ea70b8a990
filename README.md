# Deal-tab product watcher: a Dafny model

`app.js` is a Bitrix24 application that runs in an iframe on the detail tab of
a CRM deal. When the deal's product rows change, the CRM calls
`window.productRowChangeHandler(command, params)`. The handler:

- logs the command;
- checks that `params.products` is an array;
- logs the number of products;
- for each product, in array order, logs one line and starts a lookup against
  an external product API.

When a lookup completes, it searches the answer for the first record with the
product's id. It hands that record's price and stock to a callback, with falsy
values replaced by `null`. The callback logs success when both values are
non-null and failure otherwise. A failed request logs the error and then calls
the callback with `(null, null)`.

Every line goes to an on-screen activity log (`addLogMessage`):

- each message becomes an HTML entry `<span class="TYPE">[TIME] MSG</span>`;
- only the newest 25 entries are kept, and the oldest is dropped first;
- the panel shows the entries joined with `<br>`.

The model has five modules:

- `Text` (text.dfy): `Array.prototype.join` and the decimal text of a count,
  which the source uses, and the reference definitions that read them back:
  a first-occurrence search, a split at a separator, and the parse of a
  decimal number. The source itself never splits, searches or parses; these
  exist only to state that the panel and the count line can be read back.
- `ActivityLog` (activity_log.dfy): the log itself.
  - The entry format and a parser that reads an entry back.
  - The push-then-shift step, and the window of the last 25 entries.
  - The class `Log`, holding the `logs` array as a sequence, with an `Append`
    method. Its ghost history of calls proves that the array always holds the
    window of that history.
- `Messages` (messages.dfy): every message the handler and the lookups log,
  with its exact text and CSS class.
  - The class `Tab` wraps the log. It keeps a ghost trace of every message
    logged, with its time.
  - `Timed` describes runs of messages logged one after another. The time of
    each call is an input: `clock(k)` is the time of the k-th call.
- `Lookup` (lookup.dfy): what one completed lookup logs.
  - The `find`, the `|| null` mapping and the callback's branch, as functions.
  - The `.then` and `.catch` handlers and the callback, as methods on the tab.
  - Completions in any order: each completion's lines are one block, and a
    block sits intact among the others whatever their order.
- `RowChange` (row_change.dfy): the handler.
  - Payload validation, the count line, and the loop over products that logs
    one line and starts one lookup each.
  - Lemmas on the lines it logs and the lookups it starts.

## Model

| member | source | states |
|---|---|---|
| `ActivityLog.Format` | app.js:8-10 | The entry text of one call: `<span class="` + class + `">[` + time + `] ` + message + `</span>`, where the class defaults to the empty string. `ParseFormat` and `FormatParse` prove it can be read back. |
| `ActivityLog.Push` | app.js:11-15 | Below capacity the entry is appended and nothing is removed. At 25 entries exactly the oldest is removed and the rest keep their order. The new entry is always last, and the result never holds more than 25 entries. |
| `ActivityLog.Retained` | app.js:11-15 | The window is the last min(n, 25) entries of a history of n, in order. It is a suffix of the history, of length n or 25. |
| `ActivityLog.RetainedPush` | app.js:11-15 | Pushing an entry onto the window of a history gives the window of the history extended by that entry. |
| `ActivityLog.ReplayRetained` | app.js:11-15 | After n appends e1..en to an empty log, the log is exactly e(max(1, n-24))..en. |
| `ActivityLog.ThirtyAppends` | app.js:11-15 | Thirty appends leave appends #6 through #30. |
| `ActivityLog.ParseFormat` | app.js:9-10 | An entry `<span class="TYPE">[TIME] MSG</span>` reads back to its class, time and message, when the class holds no `"` and the time no `]`. |
| `ActivityLog.FormatParse` | app.js:9-10 | Any text the parser accepts is exactly the entry formatted from what it returns, and those parts are readable: the entry format and the parser are inverse in both directions. |
| `ActivityLog.Render` | app.js:16 | The panel text: the entries joined with `<br>`. `SplitRender` and `RenderAppend` state what it holds. |
| `Text.Join` | app.js:16 | `Array.prototype.join`: the parts in order with the separator between neighbours, an empty text for no parts. `JoinSnoc` and `SplitRender` state what it holds. |
| `ActivityLog.SplitRender` | app.js:16 | When no entry holds `<br>`, splitting the panel text at `<br>` gives back exactly the entries, in order. |
| `ActivityLog.RenderAppend` | app.js:11-16 | The panel after an append: on an empty log the new entry alone; below 25 entries the previous text, a `<br>` and the new entry; at 25 entries the text of all but the oldest entry, a `<br>` and the new entry. |
| `ActivityLog.FirstSeparatorAfter` | app.js:16 | When an entry holds no `<br>`, the first `<br>` of the panel text is the one right after that entry. |
| `ActivityLog.Log.constructor` | app.js:5 | The log starts empty. |
| `ActivityLog.Log.Append` | app.js:8-16 | Records the call and pushes its formatted entry: the entry is last and at most 25 remain. Keeps the invariant that the entries are the formatted last min(n, 25) calls. |
| `ActivityLog.Log.View` | app.js:16 | The text the panel shows after the last append: `Render` of the current entries. |
| `ActivityLog.Log.Window` | app.js:11-15 | The log's entries are the window of the entry texts of all calls ever made. |
| `Messages.Body` | app.js:66-149 | The exact text of each message the handler and the lookups log, with the interpolated command, count, product fields, id, values and error message. |
| `Messages.KindOf` | app.js:66-149 | The class of each message: `info` for the command and product lines; `success` for the count and external-data lines; `error` for the missing-products, failure, not-found and request-error lines. |
| `Messages.Show` | app.js:91 | How a template literal shows a record's price or stock. |
| `Messages.EntryReadsBack` | app.js:66-149 | The entry of every message the app logs reads back to its time, text and class. |
| `Messages.Timed` | app.js:9 | Logging n messages in a row makes n timed records. |
| `Messages.TimedAt` | app.js:9 | In a run of messages logged one after another, the k-th is logged at `clock(from + k)`. |
| `Messages.TimedAppend` | app.js:9 | Logging two runs one after the other is the same as logging their concatenation: the second run's times continue where the first left off. |
| `Messages.TimedThen` | app.js:9 | A trace extended by one run and then by the next equals the trace extended by both runs together. |
| `Messages.TimedOne` | app.js:9 | Logging one message makes one record with that message and that time. |
| `Messages.Tab.constructor` | app.js:5 | The tab starts with an empty log and an empty trace. |
| `Messages.Tab.LogMessage` | app.js:8-16 | Appends the message's entry to the log and extends the trace by that one message at its time. Keeps the invariant that the log received exactly the calls of the trace. |
| `Messages.Tab.Logged` | app.js:8-16 | The calls the log received are those of the messages in the trace, in order. |
| `Messages.Tab.Shown` | app.js:11-16 | The log holds the formatted entries of the last min(n, 25) messages logged. |
| `Messages.ErrorCountAppend` | app.js:66-149 | The number of error lines in two runs is the sum of their numbers. |
| `Messages.OneMessageErrors` | app.js:66-149 | One message counts as one error line exactly when its class is `error`. |
| `Messages.Truthy` | app.js:139-140 | JavaScript truthiness: `false`, `0`, `""`, `null` and `undefined` are falsy, everything else is truthy. `OrNull` states how it decides the fallback to null. |
| `Lookup.OrNull` | app.js:139-140 | `v` or-else null is null exactly when `v` is falsy, is `v` itself otherwise, and is never `undefined`. |
| `Lookup.FindIndex` | app.js:137 | `find` returns the first record whose id matches; nothing is returned exactly when no record matches. |
| `Lookup.StatusMessage` | app.js:130 | The message of the error thrown for a non-2xx status: `Error en la respuesta de la API externa: ` and the status. |
| `Lookup.Match` | app.js:134-146 | The `.then(data => …)` step: with a first matching record, no line and that record's price and stock each with the fallback to null; without one, the not-found line and `(null, null)`. `Unmatched`, `FoundReply` and `FoundOutcome` state it. |
| `Lookup.CallbackLines` | app.js:89-97 | The callback's one line: the success line with both values when neither is null, otherwise the failure line. |
| `Lookup.Completion` | app.js:125-151 | Everything one lookup logs once it has ended: for a failed request the error line and then the callback's line for `(null, null)`; for an array the matching step's lines and then the callback's line. `OneOutcome`, `RequestFailure` and `SuccessExactlyWhenBothTruthy` state it. |
| `Lookup.Unmatched` | app.js:89-146 | With no matching record, exactly one "not found" line is logged and the callback receives `(null, null)`, then logs its failure line. |
| `Lookup.FoundReply` | app.js:137-141 | A matching record logs nothing itself. The callback receives that record's price and stock, each turned into null when falsy. |
| `Lookup.FoundOutcome` | app.js:89-146 | With a matching record the only line is the callback's. It is success with the record's own values when both are truthy, and failure when either is falsy. |
| `Lookup.ReceivedSuccess` | app.js:89-146 | An array response ends in a success line if and only if its first matching record has a truthy price and a truthy stock. |
| `Lookup.SuccessExactlyWhenBothTruthy` | app.js:89-146 | A lookup ends in a success line if and only if the response is an array with a matching record whose price and stock are both truthy. |
| `Lookup.OneOutcome` | app.js:89-151 | Every completed lookup logs one or two lines. The last is the callback's outcome for that id. Any line before it is an error line and not an outcome. |
| `Lookup.RequestFailure` | app.js:125-151 | A failed request logs exactly two lines: the error line for this id carrying the caught message (for a non-2xx status the message of app.js:130), then the callback's failure line. |
| `Lookup.CompletionsIsolated` | app.js:89-151 | In whatever order lookups complete and however the others fail, each completion's lines sit intact and in place in `Completions`, the lines of the completions laid out in that order. |
| `Lookup.Callback` | app.js:89-97 | The callback logs exactly its one line for its arguments: success when both are non-null, failure otherwise. |
| `Lookup.CatchError` | app.js:147-151 | The `.catch` handler logs the error line, then the callback's line for `(null, null)`. |
| `Lookup.HandleData` | app.js:134-146 | The `.then(data => …)` handler logs exactly the lines of the matching step, then the callback's line for the values that step passes on. |
| `Lookup.CompleteLookup` | app.js:125-151 | A completed lookup extends the trace by exactly the lines of its completion, logged in order. |
| `RowChange.HasProducts` | app.js:69 | The payload check: `params` is present and `params.products` is an array; an empty array passes. |
| `RowChange.BatchLines` | app.js:70-82 | The array branch's lines: the count, then one line per product. |
| `RowChange.HandlerLines` | app.js:66-101 | The lines one call of the handler logs: the command, then either the array branch's lines or the missing-products line. `MalformedPayload` and `ValidPayload` state them. |
| `RowChange.Lookups` | app.js:69-89 | The lookups one call of the handler starts: the products' ids in array order, or none when the check fails. |
| `RowChange.ProductLines` | app.js:73-82 | One line per product. |
| `RowChange.Ids` | app.js:73-89 | One lookup id per product. |
| `RowChange.ProductLinesSnoc` | app.js:73-82 | One more product adds its line after the lines of the products before it. |
| `RowChange.IdsSnoc` | app.js:73-89 | One more product adds its id after the ids of the products before it. |
| `RowChange.ProductStep` | app.js:73-97 | One iteration of the loop logs the product's line at the next time and adds its id to the lookups. |
| `RowChange.NoProductErrors` | app.js:82 | Product lines are never error lines. |
| `RowChange.MalformedPayload` | app.js:66-101 | A payload without an array of products logs the command line and then exactly one error line, and starts no lookup. |
| `RowChange.ValidPayload` | app.js:66-98 | For N products the handler logs 2 + N lines before any lookup completes: the command, the count N, and one line per product in array order, none of them an error. It starts exactly the N lookups for the products' ids, in array order. |
| `RowChange.HandleRowChange` | app.js:61-104 | The handler extends the trace by exactly its lines, logged in order, and returns the lookups it started: one per product in array order, or none for a malformed payload. |
| `RowChange.HandleProducts` | app.js:69-98 | The array branch logs the count and then one line per product, and starts the lookups for the products' ids, in array order. |
| `Text.JoinSnoc` | app.js:16 | Joining one more part extends the joined text by the separator and that part. |
| `Text.ConcatAround` | app.js:89-151 | In a concatenation of blocks, each block sits intact between the blocks before it and those after it. |
| `Text.NatToString` | app.js:70 | The decimal text of the product count is non-empty and made of digits only. |
| `Text.ParseNatToString` | app.js:70 | The count shown in the count line reads back to the number of products. |

## Left out

- The DOM and the console are not modelled: `innerHTML`, the auto-scroll of app.js:17, the console line of app.js:18, and the `console.*` calls of the handler and the lookup. The panel text is the function `Log.View`.
- `new Date().toLocaleTimeString()` (app.js:9) depends on the clock and the locale. The time of each call is an input: a `timestamp` string for `Log.Append`, and a `clock: nat -> string` for the tab-level methods.
- The SDK check and the placement calls (app.js:21-56, 154-157) call into the Bitrix24 SDK, whose behaviour is not visible here. This includes the lines they log before the handler is bound. The model's tab starts with an empty log.
- `fetch`, the HTTP status check and `response.json()` (app.js:125-133) are network I/O. They are modelled only by their outcome, the `Response` datatype:
  - a non-2xx status, with the message of app.js:130;
  - any other rejection, with its error message;
  - the decoded array.
- A decoded body that is not an array makes `data.find` throw. That case is a `Rejected` response carrying the thrown message.
- A `null` element of the response array that comes before the match makes `p.id` throw at app.js:137, and the `.catch` path runs. Records are always objects in the model; that case is a `Rejected` response carrying the thrown message.
- Products are always records in the model. A `null` or `undefined` element of `params.products` passes the check of app.js:69, but `product.ID` then throws at app.js:75. The source handler stops at that element: the earlier products are logged and looked up, the later ones are not. `RowChange.ValidPayload` and `RowChange.HandleRowChange` promise N lookups for N products only for arrays of records.
- The callback runs inside the `.then` handler. If it threw, `.catch` would call it a second time. The callback only calls `addLogMessage`, and the model's log operations cannot fail, so this path is not modelled.
- `parseFloat(product.PRICE)` (app.js:78) is floating point used only for display. A product's price is the text the log line shows.
- Numbers in API records carry their value, for truthiness, and their JavaScript string form, for display. JavaScript's number-to-string conversion is not modelled, and neither is `NaN`, which is falsy.
- JavaScript's loose `==` in the id match (app.js:137) is modelled as equality of one id type. Matches that only coercion would produce, such as the number 5 and the string "5", are out of scope.
- The order in which asynchronous lookups complete is not fixed by the code. Each completion is modelled as one uninterrupted block of lines. `Lookup.Completions` lays the blocks out in any order, and `Lookup.CompletionsIsolated` holds for every order. That each block is exactly what one completion logs is `Lookup.CompleteLookup`'s contract.
- `Lookup.CompletionsIsolated` is about the sequence `Completions`, not about the tab's trace or the panel. No method over a run of completions ties `Completions` to `Tab.said`. The panel keeps only the last 25 entries, so later lines can push part of an earlier completion's block out of it.
- `Lookup.CompleteLookup` and the other tab methods number their times from `clock(0)`. The times the real calls get depend on when the event loop runs them.
- `Log.calls` and `Tab.said` are ghost records of every call, used to state what the log holds. The source keeps no such history.
- `ActivityLog.SplitRender` requires that no entry holds `<br>`. A message text with `<br>` in it adds a `<br>` that is no entry boundary, so splitting such a panel gives more pieces than entries.
- `ActivityLog.ParseFormat` requires a class with no `"` and a time with no `]`. Every class the app uses (`info`, `success`, `error`) qualifies; `Messages.EntryReadsBack` still requires it of the time.
