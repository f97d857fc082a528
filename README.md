# Finance-NLP chat client: a verified model

Finance-NLP is a small chat application around a remote text-generation
model. It has two web front-ends and two Python back-ends. This project
models the parts of it that hold logic and proves properties of them:

- **Standalone page** (`Ui/src/App.tsx`, module `AssistantUi`). The class
  `App` holds the message log, the input buffer and the flags `isLoading` and
  `isTyping`. The log starts with a bot greeting. `Submit` is ignored when the
  trimmed input is empty or a request is in flight. Otherwise it appends the
  user's turn, clears the input and raises both flags. The exchange then ends
  in exactly one of two ways, and both clear the flags:
  - the reply is delivered after the typing delay (`ReplyArrived`, then
    `DeliverReply`), or
  - the fixed fallback message is appended (`Fail`).

  The field `stage` records the pending continuation: the awaited fetch, or
  the timer closure that holds the reply.
- **Next.js chat form** (`Frontend/components/chat-form.tsx`, module
  `ChatFormUi`). The class `ChatForm` has no guard and no busy flag. Every
  submit appends the user's turn and clears the buffer. An assistant turn
  follows only when the HTTP reply is OK. The module also models the
  Enter/Shift key test and the bubble list, which shows only messages with
  content, each on its role's side.
- **Next.js route** (`Frontend/app/api/chat/route.ts`, module `ChatRoute`).
  It selects the last user message. If there is none, it answers 400. It
  forwards only that message's content as `{"prompt": …}`. A non-OK status
  becomes an error carrying that status. Otherwise the reply is wrapped as a
  stream of one chunk.
- **Python back-ends**:
  - `app.py` (module `ChatService`) frames the prompt as `"User: …\nBot:"`,
    keeps only the generated tokens after the prompt, and strips the decoded
    reply.
  - `API/Finance.py` (module `GenerateService`) keeps the stripped text after
    the first `"Bot:"` when the text has one; otherwise the text is returned
    unchanged, not stripped.
- **Shared pieces**:
  - `Text` holds the two whitespace sets: Python's `str.strip` and
    ECMAScript's `trim`. It also holds stripping, substring search and the
    decimal rendering of a status code.
  - `Wire` holds the JSON bodies exchanged between the components.

The network, the timer, the tokenizer and the model are not modelled as code:
- The network's answer becomes a method argument or a function-valued
  parameter.
- The 5-second timer becomes the separate step `DeliverReply`.
- The tokenizer and the model become the function-valued fields of
  `ChatService.LanguageModel`. In `API/Finance.py` they are one parameter
  from prompt to decoded text.

The chat form appends an empty user turn when the input is empty, because it
has no guard.

## Model

| member | source | states |
|---|---|---|
| Text.Strip | app.py:43 | the result has no whitespace at either end |
| Text.StripIsCore | app.py:43 | the stripped text is the slice between the computed start and end, with only whitespace before and after it |
| Text.StripUnique | app.py:43 | any such slice with non-space ends is exactly what strip returns, so strip is fully characterised |
| Text.StripIdempotent | app.py:43 | stripping an already stripped reply leaves it unchanged |
| Text.StripEmptyIffBlank | Ui/src/App.tsx:22 | `trim()` yields the empty string exactly when every character is whitespace |
| Text.StripKeepsInner | API/Finance.py:60 | a piece that starts and ends with non-space survives the strip at a known offset |
| Text.IndexOf | API/Finance.py:59-60 | finds an occurrence exactly when the pattern occurs, and the one it finds is the first |
| Text.Decimal | Frontend/app/api/chat/route.ts:24 | the status renders as a non-empty string of digits, without a leading zero unless it is 0 |
| Text.DecimalRoundTrip | Frontend/app/api/chat/route.ts:24 | the rendered status reads back as the same number |
| GenerateService.PostProcess | API/Finance.py:59-62 | without the marker the text is returned unchanged and unstripped; with it the result is stripped and shorter than the text minus the marker |
| GenerateService.FirstMarkerAfter | API/Finance.py:59-60 | after a marker-free prefix, the appended "Bot:" is the first occurrence, even across the boundary |
| GenerateService.SplitAtFirstMarker | API/Finance.py:59-60 | the result is exactly the stripped text after the first "Bot:" |
| GenerateService.StripKeepsMarker | API/Finance.py:60 | a "Bot:" in the tail is still present after the strip |
| GenerateService.LaterMarkersKept | API/Finance.py:60 | only the first marker splits; later markers stay in the result |
| GenerateService.GenerateText | API/Finance.py:38-62 | the `{"response": …}` body holds the generator's text, unchanged when it has no marker and stripped when it has one |
| ChatService.Prompt | app.py:34 | the model input is "User: ", then the user's text unchanged, then "\nBot:" |
| ChatService.PromptRoundTrip | app.py:34 | the user's text is recovered from the prompt |
| ChatService.PromptOfUserInput | app.py:34 | every prompt-shaped string is the template applied to the text it holds |
| ChatService.NewTokens | app.py:42 | the cut keeps exactly the tokens after the prompt's length, and nothing when the output is shorter |
| ChatService.NewTokensDropPrompt | app.py:42 | when the output is the prompt tokens followed by a continuation, only the continuation is kept |
| ChatService.ReplyIsContinuation | app.py:33-43 | the reply is the stripped decoding of the continuation alone, never of prompt tokens |
| ChatService.ChatbotResponse | app.py:33-43 | the reply has no surrounding whitespace, and stripping it again changes nothing |
| ChatService.Chat | app.py:46-49 | `/chat/` returns `{"bot_response": …}` whose reply is stripped and stable under a further strip |
| ChatRoute.UserMessages | Frontend/app/api/chat/route.ts:7 | the filter keeps only user-role messages, all drawn from the list |
| ChatRoute.LastUserMessage | Frontend/app/api/chat/route.ts:7 | filter-then-`pop()` yields, when it yields anything, a message of the user role taken from the list |
| ChatRoute.LastUserIndex | Frontend/app/api/chat/route.ts:7 | the chosen index holds a user message with no user message after it; none exists exactly when no message has the user role |
| ChatRoute.UserMessagesAppend | Frontend/app/api/chat/route.ts:7 | the filter distributes over concatenation |
| ChatRoute.LastUserMessageAtIndex | Frontend/app/api/chat/route.ts:7 | filter-then-pop returns the message at the last user index, and nothing when there is no user message |
| ChatRoute.NoUserMessages | Frontend/app/api/chat/route.ts:7-11 | a list without user messages filters to nothing |
| ChatRoute.TrailingNonUserIgnored | Frontend/app/api/chat/route.ts:7 | non-user messages after the last user message do not change the choice |
| ChatRoute.Post | Frontend/app/api/chat/route.ts:3-38 | 400 "No user message found" with no upstream call exactly when no message has the user role; otherwise one upstream call carrying only the last user message's content; a non-OK status throws "HTTP error! status: " and the status; an OK reply becomes a closed stream from which a reader gets the upstream response as its only chunk and then the end |
| ChatRoute.Enqueue | Frontend/app/api/chat/route.ts:32 | `controller.enqueue` is refused exactly when the stream is already closed |
| ChatRoute.Close | Frontend/app/api/chat/route.ts:33 | `controller.close` is refused exactly when the stream is already closed |
| ChatRoute.Drain | Frontend/app/api/chat/route.ts:37 | a reader of a closed stream gets every enqueued chunk in order, then the end of the stream |
| ChatRoute.DrainAfterEnqueue | Frontend/app/api/chat/route.ts:32-33 | enqueueing a chunk on an open stream and closing it places that chunk last before the end |
| ChatRoute.Start | Frontend/app/api/chat/route.ts:30-35 | after `start` the stream is closed and a reader gets the text as its only chunk, then the end |
| ChatRoute.StartSealed | Frontend/app/api/chat/route.ts:30-35 | after `start` a further enqueue or close is refused |
| ChatRoute.ErrorCarriesStatus | Frontend/app/api/chat/route.ts:23-25 | the thrown message starts with the prefix and the rest reads back as the upstream status |
| AssistantUi.App.constructor | Ui/src/App.tsx:10-18 | the log is exactly the bot greeting, the input is empty and both flags are false |
| AssistantUi.App.Type | Ui/src/App.tsx:122 | the buffer becomes the typed text and the invariant holds |
| AssistantUi.App.Submit | Ui/src/App.tsx:20-38 | ignored, with nothing changed, exactly when the trimmed input is empty or a request is in flight; otherwise it appends the untrimmed input as a user message, clears the input, raises both flags and posts the input as it was before clearing |
| AssistantUi.App.ReplyArrived | Ui/src/App.tsx:44-51 | an OK reply is held for the timer while the log, input and raised flags stay as they were |
| AssistantUi.App.DeliverReply | Ui/src/App.tsx:51-55 | the timer appends exactly the held bot message and clears both flags |
| AssistantUi.App.Fail | Ui/src/App.tsx:40-64 | a failure appends exactly the fallback bot message and clears both flags |
| AssistantUi.SuccessfulExchange | Ui/src/App.tsx:20-66 | from a fresh page, a submit made during the typing delay is ignored, and the log ends greeting, user turn, reply |
| AssistantUi.FailedExchange | Ui/src/App.tsx:20-66 | a failed exchange leaves greeting, user turn, fallback, and the next non-blank submit is accepted |
| AssistantUi.TrimGuardIsIgnored | Ui/src/App.tsx:22 | the guard as written, an empty `trim()` or a request in flight, holds exactly when the input is all whitespace or a request is in flight |
| ChatFormUi.Bubbles | Frontend/components/chat-form.tsx:61-82 | every bubble has non-empty content, and there are no more bubbles than messages |
| ChatFormUi.BubblesFromMessages | Frontend/components/chat-form.tsx:63-78 | every bubble shows some message's content on that message's side: right for the user, left for the assistant |
| ChatFormUi.BubblesAppend | Frontend/components/chat-form.tsx:63-80 | the bubble list distributes over concatenation of the log |
| ChatFormUi.BubblesAfterAppend | Frontend/components/chat-form.tsx:63-80 | an appended message adds one bubble on its role's side when it has content, and none when it is empty |
| ChatFormUi.ChatForm.constructor | Frontend/components/chat-form.tsx:23-25 | the form starts with an empty log and an empty input |
| ChatFormUi.ChatForm.Type | Frontend/components/chat-form.tsx:120 | the buffer becomes the typed text |
| ChatFormUi.ChatForm.Submit | Frontend/components/chat-form.tsx:27-40 | always appends the current input, even an empty one, as a user turn; clears the buffer; posts the input as it was before clearing |
| ChatFormUi.ChatForm.Receive | Frontend/components/chat-form.tsx:42-51 | an OK reply appends exactly one assistant turn holding `bot_response`; any other reply leaves the log unchanged |
| ChatFormUi.ChatForm.KeyDown | Frontend/components/chat-form.tsx:54-59 | submits exactly on Enter without Shift, and otherwise changes nothing |
| ChatFormUi.EnterExchange | Frontend/components/chat-form.tsx:27-59 | typing and pressing Enter posts the typed text and leaves the buffer empty; the log is the user turn, then the assistant turn only on an OK reply |

## Left out

- Network I/O: `fetch`, JSON serialisation and parsing, HTTP headers, CORS middleware and server start-up. Replies are method arguments, or function-valued parameters in `ChatRoute.Post`. Request bodies are the records of `Wire`. A reply body that does not parse is treated like a failure in `AssistantUi.App.Fail`, and it is not modelled in the other components.
- Timing: the 5-second `setTimeout` and async scheduling. The delay is the separate step `AssistantUi.App.DeliverReply`, with the flags still raised. Cancelling on unmount does not exist in the source and is not modelled.
- The tokenizer and `model.generate`: sampling, beam search, truncation to 512 tokens and devices. They stay opaque functions. In `API/Finance.py` the tokenizer, the generation and the decoding are one function from prompt to text.
- `useChat` from the `ai/react` library is not part of this model. Its `append` is a plain append to the log. Its initial state is assumed to be an empty log and an empty input.
- ChatFormUi.ChatForm.Receive: the ghost counter `inFlight` stands for the awaited fetch. The source keeps no such state.
- The `disabled={isLoading}` attribute on the standalone page's input is presentation. `AssistantUi.App.Type` is allowed in every state.
- All rendering other than the chat form's bubble filter and role-to-side choice: styling, the typing indicator and headers.
- Frontend/app/layout.tsx holds only metadata, fonts and a tooltip wrapper.
- Logging: the `console.error` calls in Ui/src/App.tsx:62 and Frontend/components/chat-form.tsx:50 have no effect on the state.
- The environment lookup of `CUSTOM_NLP_API_URL`.
- The misspelled start-up guard at the end of `API/Finance.py`.
- Strings are sequences of Unicode scalar values. JavaScript's UTF-16 code units, including lone surrogates, are not modelled.
- `CoreMessage` content given as an array of parts is not modelled. Content is always a string.
