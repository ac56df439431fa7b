# Streaming-answer aggregator of the Telegram–assistant bridge, in Dafny

The bot forwards each Telegram message to a hosted assistant, which answers
with a server-sent-event stream. `listenToSSEStream` reads this stream line by
line. It folds the stream into one answer string, and the update handler sends
exactly one reply back to the chat the message came from. This project models
that fold and the per-update reply decision, and proves what they promise.

Modules, leaf first:

- `Outcomes` holds `Option` and `Result`.
- `GoStrings` holds Go's `unicode.IsSpace` and `strings.TrimSpace`, plus string concatenation.
- `LineReader` models repeated `bufio.Reader.ReadString('\n')` over the response body: complete lines, then an unterminated tail.
- `SseEvent` holds the constants `data: `, `[DONE]`, `thread.message.delta` and `thread.message.completed`. It also holds the decoded event (`object`, and `delta.content` with its text entries) and the abstract JSON decoder `Parser`.
- `Aggregator` has two layers:
  - `Classify` gives the fate of one line: `Skip`, `Append(texts)` or `Stop`.
  - A declarative reference, `Listen`, keeps the text of every line before the first `Stop`. It then applies the read-error and empty-answer rules.
  - The Go loop itself is the method `ListenToSSEStream`, with `HandleLine` and `HandlePayload` for its body. It is proved equal to `Listen`.
- `StreamProperties` proves the promised properties of `Listen`.
- `TelegramBridge` covers the rest of the chat side. It models `createAndRunAssistantWithStreaming` as a backend call followed by the aggregator. It also models the dispatch filter, the choice of reply and the update loop.

The model follows the code, not the "Server-sent events" section of the HTML
standard (section 9.2.6 of the WHATWG HTML Living Standard, "Interpreting an
event stream"). Only lines that start with `data: `, space included, are
looked at. Each `data:` line is decoded on its own, with no multi-line
buffering, and `event:` and `id:` fields are ignored.

Two consequences of the code are worth stating:

- The handler has a separate "no answer" reply for an empty answer string (main.go:492-497). The aggregator never returns an empty string as a success, so that reply is never sent. `TelegramBridge.NoAnswerBranchUnreachable` proves this.
- Every line is trimmed with `strings.TrimSpace` first (main.go:370). So a line of white space is blank, and `data: ` followed only by spaces trims to `data:`, which is not a data line.

## Model

| member | source | states |
|---|---|---|
| GoStrings.TrimSpaceTrims | main.go:370 | trimming cuts only white space from the two ends; the result neither starts nor ends with white space, and it is empty exactly when the line is all white space |
| GoStrings.TrimSpacePadded | main.go:370 | text padded by white space on both sides trims back to exactly that text |
| LineReader.ReadString | main.go:362-366 | a read returns one complete line ending in its only line feed, plus the bytes after it; with no line feed left it returns the whole unterminated rest |
| LineReader.SplitLines | main.go:361-368 | the body is cut into complete lines and a tail without a line feed, and nothing is lost or reordered |
| LineReader.SplitConcat | main.go:361-368 | the framing is unique: joining complete lines and a tail and reading again gives back the same lines and tail |
| LineReader.SplitLinesAppend | main.go:361-368 | bytes after a line boundary read as further lines appended to the earlier ones |
| SseEvent.TextsOfAppend | main.go:394-402 | the texts of a content list are the texts of its parts, in list order |
| SseEvent.TextsOfMembers | main.go:394-399 | a string is among the appended texts exactly when some content entry carries it as its text value |
| Aggregator.DataPayload | main.go:376-377 | a line has a payload exactly when its trimmed form starts with `data: `, and the payload is the rest after that prefix |
| Aggregator.ActionAt | main.go:361-411 | the lines are handled one at a time, in order: the k-th action is the fate of the k-th line |
| Aggregator.SkipIsNeutral | main.go:370-405 | a line is skipped exactly when it is blank, not a `data: ` line, undecodable, of another object kind, or a delta without content |
| Aggregator.StopLines | main.go:376-411 | a line stops the reading exactly when its payload is `[DONE]` or decodes to an object `thread.message.completed` |
| Aggregator.Finalize | main.go:417-421 | an empty accumulation is the empty-answer error; any other accumulation is the answer unchanged |
| Aggregator.Listen | main.go:417-421 | a successful answer of the stream is never the empty string |
| Aggregator.AppendTexts | main.go:394-402 | the accumulator grows by the text values of a content list, in list order |
| Aggregator.HandleLine | main.go:370-377 | one pass of the loop body stops exactly on a stop line and appends exactly the text of a delta line |
| Aggregator.HandlePayload | main.go:378-411 | a `data: ` payload stops the reading exactly when it is `[DONE]` or a completed event, and appends exactly the texts of a delta event with content |
| Aggregator.ListenToSSEStream | main.go:355-422 | the Go loop returns the reference outcome: the text of every delta before the first terminator, the read error, or the empty-answer error; a success is never empty |
| StreamProperties.ReadFailedExactly | main.go:362-368 | the read error is returned exactly when the transport fails and no line stopped the reading first; text gathered by then is dropped |
| StreamProperties.StopCutsStream | main.go:379-411 | lines after the first `[DONE]` or completed event, and the way the transport ends, do not change the outcome |
| StreamProperties.BytesAfterStopIgnored | main.go:379-411 | bytes that arrive after a stop line do not change the answer |
| StreamProperties.NeutralLineIgnored | main.go:370-388 | a blank, non-data, undecodable or other-kind line can be removed from anywhere in the stream without changing the outcome |
| StreamProperties.PartialLineIgnored | main.go:362-366 | a last line that lacks its line feed is never processed |
| StreamProperties.DeltaStreamThenDone | main.go:379-421 | N delta events then `data: [DONE]` give the concatenation of their texts in arrival order, or the empty-answer error when that is empty |
| StreamProperties.DeltaStreamThenEnd | main.go:362-368 | delta events then end of body give their texts at end-of-stream, or the empty-answer error when there is no text, and the read error if the transport fails |
| StreamProperties.HelloExample | main.go:391-399 | the two delta events "Hel" and "lo" followed by `[DONE]` give "Hello" |
| StreamProperties.DoneOnlyExample | main.go:379-382 | a stream that starts with `data: [DONE]` is the empty-answer error |
| StreamProperties.EmptyBodyExample | main.go:362-368 | an empty body is the empty-answer error at EOF and the read error on a transport failure |
| TelegramBridge.CreateAndRun | main.go:459-465 | a failed backend call is a request error; otherwise the aggregator's outcome is passed on, and a success is never empty |
| TelegramBridge.Dispatch | main.go:476 | only messages with non-empty text are dispatched |
| TelegramBridge.DispatchAppend | main.go:475-476 | the dispatched messages of a feed are those of each part, in feed order |
| TelegramBridge.ChooseReply | main.go:484-500 | the reply goes to the given chat: the fixed error text on failure, the fixed "no answer" text on an empty answer, and the answer itself when it is not empty |
| TelegramBridge.NoAnswerBranchUnreachable | main.go:492-497 | combined with the aggregator, the empty-answer branch is never taken; each reply is the error text or the non-empty answer, sent to the message's own chat |
| TelegramBridge.HandleUpdates | main.go:475-505 | every dispatched message gets exactly one reply, the one its own task computes, and no other reply is sent |

## Left out

- Aggregator.Body: a response body that never ends is not modelled. A body is finite data followed by EOF or a read error. On a stream that stays open without `[DONE]`, a completed event or EOF, `listenToSSEStream` never returns, because the `http.Client` at main.go:459 sets no timeout.
- Configuration loading (`loadConfig`) is left out. It is file I/O plus a YAML library.
- Provisioning is left out: `createAssistant`, `uploadFile`, `createVectorStoreAndUploadFiles`, `registerFileInVectorStore` and `updateAssistantWithVectorStore`. They are sequential HTTP calls with library encoding. Their results reach the core only as fixed identifiers.
- Request construction in `createAndRunAssistantWithStreaming` is not modelled: JSON marshalling, headers, and the floating-point `temperature` and `top_p`. The whole call is a `Backend` function from the query to "failed" or "a body".
- TelegramBridge.CreateAndRun: the backend is a function of the query alone. Two identical queries therefore get the same modelled answer, although the real assistant need not give one.
- JSON decoding is the abstract `Parser`. `json.Unmarshal` and the nested type assertions on `object`, `delta`, `content`, `text` and `value` are summarised by the `Event` and `Part` datatypes.
- Text is modelled as sequences of Unicode code points, not UTF-8 bytes. The `data: ` prefix and the sentinel are ASCII, so prefix tests and slicing agree. Invalid UTF-8 is not modelled.
- Goroutines and the update channel are not modelled. Each task is a pure function of its own message, and Go's value copies give that isolation. TelegramBridge.HandleUpdates lists replies in dispatch order, although the concurrent tasks may send them in any order. There is no bound on concurrent tasks in the source, and none is modelled.
- Logging (`slog`), `resp.Body.Close`, the Telegram bot API, and errors from `bot.Send` are left out. They do not affect which reply is chosen.
- The handler reads `Message.From.ID` for logging and `Message.Chat.ID` for the reply. The model assumes both are present, as the Bot API provides for ordinary messages.
