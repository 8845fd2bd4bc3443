# A verified model of the CFO chat assistant's tool pipeline

The application `app/__main__.py` is a Gradio chat front end ("问CFO").
It streams a DeepSeek reply into the conversation. It then looks in the
finished reply for an inline tool directive `[[TOOLS:TRUE][payload]]` or
`[[TOOLS:FALSE][payload]]`. On `TRUE` it runs the OpenManus agent on the
payload and appends the agent's result to the reply. While the agent runs, a
list of named loggers is bridged into the application's root handlers and
restored afterwards.

This project models that pipeline in Dafny and proves its properties.

- **`Support`** (`support.dfy`): the outcome of a foreign call (`Returns` /
  `Raises(message)`), and Python's `str.strip()` over the explicit
  whitespace set of `str.isspace()`. It also holds `"".join(...)`.
- **`ToolDirective`** (`directive.dfy`): `ToolsProcessor.extract_tools_content`.
  The regex `\[\[TOOLS:(TRUE|FALSE)\]\[(.*?)\]\]` with DOTALL is a
  hand-written matcher:
  - `MatchHere` is anchored;
  - `Search` takes the leftmost start, like `re.search`;
  - `RemoveAll` removes every non-overlapping match, like `re.sub`;
  - `Extract` is the method itself.

  The global `HIDE_TOOLS_CONTENT` is the parameter `hideTools`.
- **`LoggingBridge`** (`logging.dfy`): `configure_manus_logging` and
  `restore_manus_logging`.
  - `Registry` is the logger registry: logger name to level, handler list and
    propagate flag.
  - Handlers are values with an identity (`id`). A fresh `FileHandler` gets
    the unused id `nextId`.
  - `LoggerState`s for entries not yet in the map are what
    `logging.getLogger` returns for a new logger.
  - The class `LoggingRegistry` holds the registry as mutable fields. Its
    methods perform the two operations with the source's loops and are
    proved equal to the specification functions `ConfigureFrom` and
    `RestoreFrom`. Lemmas state what those functions promise.
- **`ToolGateway`** (`gateway.dfy`): `process_tools_request_async`, with the
  agent abstracted as four outcomes: import, construction, `run` and
  `cleanup`. It is modelled as a result string plus a trace of events. The
  module also holds the result choice of the synchronous wrapper
  `process_tools_request` and `ToolsProcessor.process_message`. There the
  gateway is a function parameter and the payloads it receives are recorded.
- **`ChatEngine`** (`chat.dfy`): the streaming loop of `chat_with_cfo`, and the
  callbacks `respond` and `stop_generation`. The stream is two inputs: whether
  opening it raises, and then a sequence of optional chunk texts.

Where the documented design and the code differ, the model follows the code:
- **Hide mode** does not always remove every directive. Removing one
  directive can join the text around it into a new directive. See
  `ToolDirective.HideModeNotIdempotent`.
- **Empty payload.** For a whitespace-only payload the code still configures
  logging, imports and constructs the agent, and runs `cleanup`. It only skips
  `run`. See `ToolGateway.EmptyContentStillConstructs`.
- **Restore** re-adds nothing. A handler removed by someone else while the
  bridge is up stays removed. See `LoggingBridge.RestoreOnlyRemoves`.
- **Empty stream.** When every chunk is empty, no assistant turn is added and
  the final transcript ends with the user turn. See
  `ChatEngine.AllChunksEmpty`.
- **Overlapping bridges.** Two bridges that overlap without nesting leave the
  loggers at `INFO` with `propagate = True`. Nested bridges restore
  correctly. See `LoggingBridge.CrossedBridgesLeaveInfo` and
  `LoggingBridge.NestedBridgesRestore`.
- **Timeout.** When the wait times out, leaving the `with ThreadPoolExecutor`
  block still waits for the worker thread. The timeout text is returned only
  after that.

## Model

| member | source | states |
|---|---|---|
| Support.StripLeft | app/__main__.py:178 | `lstrip`: the result is a suffix of the input, everything dropped is whitespace, and the result does not start with whitespace |
| Support.StripRight | app/__main__.py:178 | `rstrip`: the result is a prefix of the input, everything dropped is whitespace, and the result does not end with whitespace |
| Support.Strip | app/__main__.py:178 | `strip`: the result is a slice of the input with only whitespace before and after it, and it neither starts nor ends with whitespace; these facts fix the result |
| Support.StripEmptyIff | app/__main__.py:322 | `s.strip()` is empty exactly when every character of `s` is whitespace |
| Support.StripNoOuterSpace | app/__main__.py:178 | stripping a text without outer whitespace returns it unchanged |
| Support.Join | app/__main__.py:556 | `"".join` is empty exactly when every part is empty, and one part joins to itself |
| Support.JoinAppend | app/__main__.py:556 | joining a list split in two is joining each part and concatenating |
| ToolDirective.FindClose | app/__main__.py:164 | the result is the first position at or after `from` where `]]` starts, or none exists |
| ToolDirective.Encode | app/__main__.py:164 | a directive's text is `[[TOOLS:`, then `TRUE][` or `FALSE][` by its token, the payload, and `]]`; the payload sits between the head and the closing `]]` |
| ToolDirective.Delimit | app/__main__.py:164 | after a token head, the lazy group ends at the first `]]`; the match encodes a directive with a well-formed payload, and without one no directive with that token starts there |
| ToolDirective.MatchHere | app/__main__.py:164 | an anchored match is a well-formed directive whose text starts the input; no match means no directive text starts it |
| ToolDirective.MatchAt | app/__main__.py:165 | the pattern tried at position `j` of the message: a match is a well-formed directive whose text starts at `j`, and no match means no directive text starts there |
| ToolDirective.Search | app/__main__.py:165 | `re.search` returns the leftmost position where a match starts, with no match before it; none means no match anywhere |
| ToolDirective.RemoveAll | app/__main__.py:178 | `re.sub` never lengthens the text |
| ToolDirective.Extract | app/__main__.py:160-187 | with hide mode off the cleaned text is the message; without any directive the result is the message, `False` and `""` |
| ToolDirective.EncodingUnique | app/__main__.py:164-169 | at most one well-formed directive starts a given text, so the token and the lazy payload are determined |
| ToolDirective.ShorterPayloadCloses | app/__main__.py:164 | a longer payload for the same token that also closes with `]]` contains `]]`, so it is not what the lazy group captures |
| ToolDirective.LazyPayload | app/__main__.py:164-169 | whenever some directive text starts `t`, the match has its token and a payload that is a prefix of that directive's payload (the shortest one) |
| ToolDirective.SameToken | app/__main__.py:164-168 | two directive texts at one position have the same token: `TRUE` and `FALSE` heads exclude each other |
| ToolDirective.SharedPayloadPrefix | app/__main__.py:164 | of two matches with one token at one position, the shorter payload is a prefix of the longer |
| ToolDirective.ExtractWithoutDirective | app/__main__.py:185-187 | with no directive anywhere, extraction returns the message unchanged, `False` and `""` |
| ToolDirective.ExtractFirst | app/__main__.py:165-169 | the first directive in the text decides the status (true iff its token is `TRUE`) and the payload |
| ToolDirective.SearchFindsFirst | app/__main__.py:165 | the search stops at the first directive, and that directive is the match |
| ToolDirective.SearchStopsAt | app/__main__.py:165 | searching from `from` stops at the first matching position |
| ToolDirective.ExtractFound | app/__main__.py:167-169 | on a match, status and payload are those of the match at the position the search found |
| ToolDirective.RemoveFirst | app/__main__.py:178 | `re.sub` keeps the text before the first directive, drops the directive and goes on removing in the rest |
| ToolDirective.RemoveWithoutDirective | app/__main__.py:178 | `re.sub` changes nothing in a text without directives |
| ToolDirective.NoDirectiveInBracketFreeText | app/__main__.py:164 | no directive starts inside text without `[` |
| ToolDirective.RoundTrip | app/__main__.py:160-183 | extracting a lone encoded directive gives back its token and payload; the cleaned text is the directive (hide mode off) or empty (hide mode on) |
| ToolDirective.RemoveEncoding | app/__main__.py:178 | `re.sub` removes a lone directive entirely |
| ToolDirective.ExtractTrailing | app/__main__.py:160-183 | for text without `[` followed by a directive, extraction gives its token and payload; the cleaned text is the whole message, or the stripped text before the directive |
| ToolDirective.RemoveTrailing | app/__main__.py:178 | `re.sub` of text without `[` followed by one directive leaves the text before it |
| ToolDirective.NoDirectiveWithoutDoubleBracket | app/__main__.py:164 | only a text starting with `[[` can start a directive |
| ToolDirective.WitnessRemoved | app/__main__.py:178 | `re.sub` removes the inner `[[TOOLS:FALSE][x]]` from `[[TOOLS:TR[[TOOLS:FALSE][x]]UE][a]]`, and what is left is the new directive `[[TOOLS:TRUE][a]]` |
| ToolDirective.HideModeNotIdempotent | app/__main__.py:176-178 | hide-mode cleaning can produce a text in which a `TRUE` directive is found again, so cleaning is not idempotent |
| LoggingBridge.Names | app/__main__.py:270 | the names of a snapshot, in order |
| LoggingBridge.AttachOne | app/__main__.py:232-247 | one root handler: only the named logger changes, its level and propagate stay, its old handlers stay as a prefix with at most one appended, and at most one new id is used |
| LoggingBridge.AttachAll | app/__main__.py:232-247 | the loop over the root handlers: only the named logger changes, its level and propagate stay, and its old handlers stay as a prefix with at most one appended per root handler |
| LoggingBridge.ConfigureOne | app/__main__.py:214-247 | one name: the logger ends at INFO with propagate True, its old handlers kept as a prefix, and no other logger changes |
| LoggingBridge.ConfigureFrom | app/__main__.py:212-247 | the outer loop: one snapshot entry per name, loggers not in the list unchanged, the id counter never decreasing |
| LoggingBridge.Keep | app/__main__.py:278-280 | the removal loop never lengthens the handler list |
| LoggingBridge.Restored | app/__main__.py:274-283 | a restored logger has the saved level and propagate, and holds a handler iff it held it just before and the snapshot saved it |
| LoggingBridge.RestoreOne | app/__main__.py:272-283 | restoring one entry sets its logger's saved level and propagate, touches no other logger, and keeps the id counter |
| LoggingBridge.RestoreFrom | app/__main__.py:270-283 | the restore loop keeps the id counter and leaves every logger the snapshot does not name as it was |
| LoggingBridge.RemoveFirst | app/__main__.py:280 | `removeHandler` of a handler the logger does not hold changes nothing |
| LoggingBridge.KeepMembers | app/__main__.py:278-280 | after the removal loop, a handler remains iff it was there and is in the saved list |
| LoggingBridge.KeepAppend | app/__main__.py:278-280 | the removal loop works piecewise on a handler list split in two |
| LoggingBridge.KeepAll | app/__main__.py:278-280 | when every handler is saved, the removal loop keeps the whole list |
| LoggingBridge.KeepNone | app/__main__.py:278-280 | when no handler is saved, the removal loop empties the list |
| LoggingBridge.KeepExtended | app/__main__.py:232-280 | removing everything not saved from a list that only had handlers appended gives back the saved list, in its order |
| LoggingBridge.RemoveFirstAfter | app/__main__.py:280 | `removeHandler` removes the first occurrence only |
| LoggingBridge.AttachOneFacts | app/__main__.py:232-247 | one root handler: already-held ones are skipped; a stream handler is added by reference; a file handler is added as a new handler with a fresh id, the same path and level; nothing else changes and no duplicate appears |
| LoggingBridge.AttachAllFacts | app/__main__.py:232-247 | after the loop over the root handlers, the logger's list is its old list with attached handlers appended, every root stream handler is present, every openable root file handler is copied, and no duplicate appears |
| LoggingBridge.AttachAllPresent | app/__main__.py:233 | handlers the logger already holds are not attached again |
| LoggingBridge.ConfigureOneFacts | app/__main__.py:214-247 | one logger ends at level INFO with propagate True and bridged handlers; the other loggers and the root handler list are unchanged |
| LoggingBridge.ConfigureFromFacts | app/__main__.py:200-253 | the snapshot records each name's level, handlers and propagate as they were before any change; each configured logger is at INFO, propagating, bridged; other loggers are unchanged |
| LoggingBridge.RestoreOneFacts | app/__main__.py:270-283 | restoring one entry resets level and propagate, keeps only the saved handlers, and touches no other logger |
| LoggingBridge.RestoreFromFrame | app/__main__.py:267-283 | restoring keeps the id counter and creates loggers only for names in the snapshot |
| LoggingBridge.RestoreFromElsewhere | app/__main__.py:270-283 | loggers not named in the snapshot are left as they are |
| LoggingBridge.RestoreFromAt | app/__main__.py:270-283 | each named logger ends as its saved state, with the current handlers filtered through the saved list |
| LoggingBridge.BridgeRoundTrip | app/__main__.py:212-283 | configure followed by restore, with no change in between, leaves every logger's level, handler sequence (same order) and propagate flag exactly as before |
| LoggingBridge.ConfigureRestorable | app/__main__.py:212-247 | configure only appends handlers and records the old state of each name in order |
| LoggingBridge.RestoreOnlyRemoves | app/__main__.py:275-283 | restore never adds a handler and resets level and propagate of every named logger |
| LoggingBridge.RestoreIdempotent | app/__main__.py:265-283 | a second restore with the same snapshot changes nothing |
| LoggingBridge.RestoreFromViews | app/__main__.py:265-283 | restore depends only on what the loggers show |
| LoggingBridge.NestedBridgesRestore | app/__main__.py:190-283 | a bridge opened and closed inside another leaves, after both restores, every logger as it was |
| LoggingBridge.CrossedBridgesLeaveInfo | app/__main__.py:190-283 | when two bridges on the same names are restored in the order they were opened, every bridged logger stays at INFO with propagate True |
| LoggingBridge.LoggingRegistry.constructor | app/__main__.py:63-146 | the registry starts as a given well-formed state |
| LoggingBridge.LoggingRegistry.AddHandler | app/__main__.py:242-247 | `addHandler` appends a handler the logger does not hold and otherwise changes nothing |
| LoggingBridge.LoggingRegistry.RemoveHandler | app/__main__.py:280 | `removeHandler` removes the first occurrence and touches nothing else |
| LoggingBridge.LoggingRegistry.AttachHandler | app/__main__.py:233-247 | one pass of the inner loop: the registry becomes `AttachOne` of the old one |
| LoggingBridge.LoggingRegistry.AttachRoots | app/__main__.py:232-247 | the inner loop: the registry becomes `AttachAll` of the old one |
| LoggingBridge.LoggingRegistry.ConfigureEntry | app/__main__.py:216-247 | one logger: level INFO, propagate True, root handlers attached, as `ConfigureOne` |
| LoggingBridge.LoggingRegistry.Configure | app/__main__.py:190-253 | new state and snapshot are `ConfigureFrom` of the old state over the eight bridged names |
| LoggingBridge.LoggingRegistry.ConfigureName | app/__main__.py:214-247 | one pass of the outer loop moves one name from the rest of `ConfigureFrom` to the state and the snapshot built so far |
| LoggingBridge.LoggingRegistry.DropUnsaved | app/__main__.py:278-280 | the loop over a copy of the handler list removes exactly the handlers not saved, in order |
| LoggingBridge.LoggingRegistry.DropPending | app/__main__.py:278-280 | one pass over the copy of the handler list advances the filtered prefix by one handler |
| LoggingBridge.LoggingRegistry.DropIfUnsaved | app/__main__.py:279-280 | one pass: a handler not saved is removed, a saved one kept |
| LoggingBridge.LoggingRegistry.RestoreEntry | app/__main__.py:272-283 | one entry: the state becomes `RestoreOne` of the old one |
| LoggingBridge.LoggingRegistry.Restore | app/__main__.py:265-283 | the state becomes `RestoreFrom` of the old one; an empty snapshot is a no-op |
| ToolGateway.ToolTrace | app/__main__.py:302-360 | every path starts with configuring logging and importing the agent, and ends with restoring logging |
| ToolGateway.InnerResult | app/__main__.py:320-347 | the inner `try` returns the empty-request text iff the content is whitespace only; otherwise the success text iff `run` returned, and `工具执行失败: <msg>` when it raised |
| ToolGateway.ToolResult | app/__main__.py:304-357 | once the agent exists and `cleanup` returns, the result is the inner result; on any import, construction or cleanup failure it starts with `工具初始化失败: ` |
| ToolGateway.IsBlank | app/__main__.py:322 | `not content.strip()` holds exactly when the content is whitespace only |
| ToolGateway.GuardedRun | app/__main__.py:304-357 | the outer `try` body with its handlers returns `ToolResult` and performs the middle of `ToolTrace` |
| ToolGateway.BridgedLoggersDistinct | app/__main__.py:200-209 | the eight bridged logger names are pairwise different |
| ToolGateway.ProcessToolsRequestAsync | app/__main__.py:289-360 | result and trace are `ToolResult` and `ToolTrace`, and every logger ends exactly as it started |
| ToolGateway.TraceCases | app/__main__.py:302-360 | the trace has one of four shapes: import failed, construction failed, empty payload, or run attempted |
| ToolGateway.RestoreOnEveryPath | app/__main__.py:302-360 | logging is configured first and restored last, once each, on every path |
| ToolGateway.CleanupIffConstructed | app/__main__.py:313-353 | `cleanup` runs iff the agent was constructed, once, right before the restore, including on the empty-payload path |
| ToolGateway.RunOnlyWithContent | app/__main__.py:322-333 | `run` is called at most once, with the content itself, iff the agent exists and the content is not whitespace only |
| ToolGateway.EmptyContentStillConstructs | app/__main__.py:302-324 | a whitespace-only payload still configures, imports, constructs and cleans up, never runs, and returns the empty-request text when cleanup succeeds |
| ToolGateway.ResultCases | app/__main__.py:307-357 | the result on each path: import error, construction error, cleanup error overriding the result, empty request, success text, `工具执行失败: <msg>` |
| ToolGateway.Container | app/__main__.py:378-397 | the worker leaves exactly one entry: the coroutine's result when its event loop returns, `工具处理出错: <msg>` when it raises |
| ToolGateway.SyncResult | app/__main__.py:405-419 | a finished wait returns the first entry of the container, or the no-result default only when it is empty; a timeout gives the timeout text; a failed wait `工具处理过程出错: <msg>` |
| ToolGateway.ProcessToolsRequest | app/__main__.py:363-419 | after a finished wait, the result is the coroutine's when the worker's loop returned and `工具处理出错: <msg>` when it raised |
| ToolGateway.SyncResultFinished | app/__main__.py:386-413 | when the wait finishes, the result is the coroutine's or the worker's error text, never the no-result default |
| ToolGateway.ResultNotDefault | app/__main__.py:289-413 | no result of the coroutine equals the no-result default text |
| ToolGateway.SyncResultWaitFails | app/__main__.py:414-419 | a timed-out wait gives the timeout text and a failed wait `工具处理过程出错: <msg>`, whatever the worker did |
| ToolGateway.ProcessMessage | app/__main__.py:422-447 | the gateway is called at most once |
| ToolGateway.ProcessMessageCalls | app/__main__.py:436-447 | the gateway is called exactly once, with the payload, iff the status is true, and the reply is `cleaned + "\n\n[工具执行结果]: " + result`; otherwise the cleaned text unchanged |
| ToolGateway.ProcessMessagePlain | app/__main__.py:436-447 | a reply without directives is returned unchanged and calls nothing |
| ToolGateway.ProcessMessageTrailingTrue | app/__main__.py:436-444 | a reply ending in a `TRUE` directive sends the payload and appends the result after the whole reply or after the stripped text before the directive |
| ToolGateway.ProcessMessageTrailingFalse | app/__main__.py:436-447 | a reply ending in a `FALSE` directive calls nothing; hide mode removes the directive |
| ToolGateway.EmptyPayloadEndToEnd | app/__main__.py:302-444 | a `TRUE` directive with a whitespace-only payload reports the empty-request text after the marker |
| ChatEngine.Texts | app/__main__.py:546-556 | `partial_response` holds only non-empty texts, at most one per chunk |
| ChatEngine.Flatten | app/__main__.py:546-575 | the concatenated chunk texts are empty exactly when every chunk is empty or missing |
| ChatEngine.Streamed | app/__main__.py:553-565 | one `True` update per streamed text |
| ChatEngine.StreamedAt | app/__main__.py:555-565 | after the k-th text the assistant turn holds the first k+1 texts joined |
| ChatEngine.StreamedStep | app/__main__.py:553-565 | a new text adds exactly one update after the earlier ones |
| ChatEngine.FinalTranscript | app/__main__.py:575-582 | the last transcript is the conversation and user turn plus at most one assistant turn, and equals them exactly when nothing was streamed |
| ChatEngine.ChatUpdates | app/__main__.py:514-590 | the last update is `False` and all before it `True`; one update when the stream fails to open, otherwise one per non-empty chunk plus the final one |
| ChatEngine.ChatToolRequests | app/__main__.py:512-578 | a chat turn makes at most one tool request, none when the stream fails to open, and one only when the full reply's directive is `TRUE` |
| ChatEngine.ChatWithCfo | app/__main__.py:514-590 | the loop that appends to `partial_response` and writes the reply so far into the last turn yields `ChatUpdates` and sends `ChatToolRequests` to the gateway |
| ChatEngine.JoinTexts | app/__main__.py:549-575 | joining the non-empty texts is the concatenation of every chunk's text |
| ChatEngine.TextsAppend | app/__main__.py:546-555 | the texts of two stretches of the stream are the texts of each, in order |
| ChatEngine.TextsEmptyIff | app/__main__.py:549-555 | nothing is streamed iff every chunk is empty or failed |
| ChatEngine.StreamingUpdate | app/__main__.py:553-565 | each non-empty chunk yields one `True` update whose last turn holds everything streamed up to and including it, after the conversation and the user turn |
| ChatEngine.FinalUpdate | app/__main__.py:575-590 | after a non-empty stream, the final `False` update is conversation + user turn + assistant turn with `process_message` of the full text |
| ChatEngine.AllChunksEmpty | app/__main__.py:559-590 | if every chunk is empty, the only update is `False`, ends with the user turn, and no tool request is made |
| ChatEngine.OpenFailure | app/__main__.py:536-540 | a stream-open failure yields exactly one `False` update ending with the assistant error turn |
| ChatEngine.ConversationKept | app/__main__.py:514-582 | every update is the input conversation, the user turn and at most one assistant turn |
| ChatEngine.AddsReply | app/__main__.py:559-560 | appending at most one assistant turn keeps the prefix |
| ChatEngine.KeptAt | app/__main__.py:514-590 | the k-th update is the conversation, the user turn and at most one assistant turn |
| ChatEngine.Respond | app/__main__.py:655-675 | while generating, one echo `(conversation, conversation, user_message, generating)` and no stream; otherwise each update shown, stored and with the input cleared |
| ChatEngine.Present | app/__main__.py:673-675 | each update becomes `(transcript, transcript, "", generating)` in order |
| ChatEngine.StopGeneration | app/__main__.py:692-702 | the conversation is kept and the generating flag cleared |

## Left out

- The worker thread, the event loop it creates, `future.result(timeout=300)`
  and the executor shutdown are not modelled. Only the result choice of
  `process_tools_request` is modelled (`ToolGateway.SyncResult`), with the
  wait's outcome and the worker's loop outcome as inputs.
- The OpenAI/DeepSeek client (lines 41-50, 529-535) is an input: whether
  opening the stream raises, and then the chunk texts that
  `chunk.choices[0].delta.content` yields (a failed access is a missing
  chunk).
- ChatEngine.ChatWithCfo: an exception raised while iterating the stream is
  left out. In the source it ends the generator in mid-stream; the model
  has no such case.
- The system prompt and the message list built for the API call (lines
  471-520) are not modelled, because they only feed the foreign call.
- `asyncio.sleep(0.05)`, every `print`, and every `logger.info`/`warning`/`error`
  call are output only and left out.
- The module-level handler, formatter and rotating-file setup (lines 63-146)
  is library I/O. It is represented only by the initial registry given to
  `LoggingBridge.LoggingRegistry.constructor`.
- Formatters, encodings and file modes of the new `FileHandler`s are left
  out. So is the fact that the copies made by configure are not closed
  after restore. A failure to open one (`IOError`) is the input set
  `unopenable`.
- The `except Exception` blocks at lines 249-250 and 255-260 of configure
  and 285-286 of restore are not modelled. The modelled logging operations
  cannot raise, so those handlers cannot be reached.
- ToolGateway.ProcessToolsRequestAsync: its promise that every logger ends
  exactly as it started assumes that nothing else touches the logger
  registry between configure and restore: neither the agent nor another
  session running at the same time. Overlapping sessions, which the design
  allows, are covered by `LoggingBridge.CrossedBridgesLeaveInfo` instead.
- `ToolGateway.AgentModel` treats a failed import as an `ImportError`. An
  import raising another exception, which the outer handler would report
  as `工具初始化失败: <msg>`, is not modelled. `BaseException`s such as
  cancellation are also left out.
- The OpenManus agent itself (`open_manus/app/agent/manus.py`) is four
  outcomes: import, construction, `run` and `cleanup`. Prompt constants are
  not modelled.
- The Gradio layout and event wiring (lines 598-769) are left out, and so
  are `toggle_button_visibility` and the cancelling of the running send
  event by the stop button. `update_hide_tools_setting` (lines 641-652) only
  sets the global that the model passes in as `hideTools`.
- ChatEngine.ChatWithCfo: updates are values, copied when they are yielded.
  The source yields the same mutable list every time. A consumer that kept
  an earlier update would see later changes, and this aliasing is not
  modelled.
- Python's `str.strip` uses the character set of `str.isspace()`, written
  out in `Support.IsSpace`. Unicode normalisation does not arise.
