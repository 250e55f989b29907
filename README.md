# Chat view conversation engine

This project models the conversation engine of the chat view of a macOS client
for a local text-generation server (Ollama). The engine is the part of
`ChatView` that changes state:

- the **submit step** (`sendMessage`). It trims the input field and ignores blank
  input. Otherwise it appends a user entry carrying a snapshot of the chat's
  continuation context, clears the input field, appends an assistant entry
  holding the running accumulator (`CurrentResponse`), and sends a
  generation request.
- the **reply loop** (`sendHTTPPostRequest`), one line of the streamed reply at
  a time:
  - a line that did not decode is skipped;
  - a non-final record appends its fragment to the accumulator, replaces the
    last history entry with a new assistant entry showing the accumulator, and
    copies the history into the chat's messages;
  - a completion record clears the accumulator, appends the chat to the chat
    list when its context is still empty, replaces the context with the
    record's (or the empty one), and stamps the update date.
- the **"New Chat" reset**: a fresh chat with topic "New Chat", no messages and
  no context is opened, and the history is emptied.

Modules:

- `Wrappers` (wrappers.dfy): `Option`, with `GetOr` for Swift's `??`.
- `Text` (text.dfy): the trimming of `trimmingCharacters(in: .whitespacesAndNewlines)`,
  on Unicode scalar values, over an assumed list of blank characters (see
  "## Left out").
- `ChatModel` (chat_model.dfy): `ChatMessage` and `OllamaResponse` as datatypes.
  `Chat` is a class, because it is a shared reference: the chat list and the view
  hold the same object.
- `Engine` (engine.dfy): the engine as functions of a `ChatState` value. It has
  `Submit`, `RequestFor`, `ApplyLine` (with `Extend` and `Complete`) and
  `ApplyStream`, and the lemmas about them.
- `Scenarios` (scenarios.dfy): concrete runs. These are a first exchange (two
  fragments and a completion record), a follow-up on a chat with a context, a
  reply cut off before completion, and repeated registration.
- `ChatViews` (chat_view.dfy): class `ChatView` with the view's state fields
  and the mutating methods. `SubmitInput`, `HandleLine`, `ReceiveStream` and
  `SendMessage` are proved to produce exactly the state the `Engine` functions
  give; `NewChat` and the constructor state the new fields outright.

Inputs the code takes from its environment are parameters:

- `UUID()` and `Date()` are `Uuid` and `Date` values. The submit step receives
  two identifiers. Each stream line carries the fresh identifier and the date
  that are used while it is handled.
- A reply stream is a sequence of `StreamLine`s. Each line holds what decoding
  it gave: `None` for a line that did not decode.

Behaviours of the code a reader might not expect, all captured by the model:

- A fragment does not update the open entry in place. It replaces it with a new
  `ChatMessage`, with a new identifier (`HandleLine`, `Extend`).
- The reply loop does not stop at a completion record. Lines after it are
  handled too (`ReceiveStream`).
- There is no title request. The chat is appended to the chat list by the
  completion record itself, whenever the chat's context is empty at that
  moment. The append is not idempotent. A completion record without a context
  leaves the context empty, so the next completion appends the same chat again
  (`RepeatedRegistration`). For the same reason, "the context is empty exactly
  when no exchange has completed" does not hold.
- Nothing rejects a submit while a reply is streaming.
- The chat's messages are synced from the history only by fragments. A reply
  without fragments leaves them as they were (`ExchangeHistory`).
- The accumulator is reset only by a completion record. After a reply that
  ends early, the next submit's assistant entry starts with the stale partial
  text (`InterruptedExchange`).
- The request carries the model `llama3`, the trimmed prompt and the chat's
  context. The body has no `stream` key.
- Replacing the last entry indexes `ChatHistory.indices.last ?? 0`. On an empty
  history that index is out of range, which traps in Swift. `ApplyLine`,
  `HandleLine`, `ApplyStream` and `ReceiveStream` therefore require a non-empty
  history whenever a fragment arrives. After a submit the history is never
  empty, and `SendMessage` needs no such requirement.

## Model

| member | source | states |
|---|---|---|
| `Text.TrimStart` | ContentView.swift:128 | the result is the suffix of the input left after its longest prefix of whitespace/newline characters |
| `Text.TrimEnd` | ContentView.swift:128 | the result is the prefix of the input left after its longest suffix of whitespace/newline characters |
| `Text.TrimEmptyIffBlank` | ContentView.swift:128-130 | the trimmed input is empty exactly when every character is whitespace or a newline |
| `Text.TrimIdempotent` | ContentView.swift:128 | the trimmed text starts and ends with a non-blank character, and trimming it again changes nothing |
| `ChatModel.Chat.constructor` | ContentView.swift:23-29 | a chat holds exactly the topic, messages, dates and context it was made with |
| `Engine.SubmitBlankIsIgnored` | ContentView.swift:128-132 | blank input leaves the whole state unchanged and sends no request |
| `Engine.SubmitAppendsExchange` | ContentView.swift:134-146 | non-blank input adds exactly two entries, keeps all earlier ones and clears the input: a user entry with the trimmed text and the chat's context, then an assistant entry with the accumulator; the request carries model, trimmed text and context |
| `Engine.UndecodedLineIsSkipped` | ContentView.swift:170 | a line that did not decode changes nothing |
| `Engine.FragmentStep` | ContentView.swift:178-181 | a fragment extends the accumulator, keeps the history length and every entry but the last, puts a new assistant entry showing the accumulator last, makes the chat's messages equal the history, and changes nothing else |
| `Engine.CompletionStep` | ContentView.swift:171-177 | a completion record clears the accumulator, sets the context to the record's or to the empty one, stamps the date, keeps the history, and appends the chat to the list if and only if the context was empty before |
| `Engine.StreamKeepsEarlierEntries` | ContentView.swift:169-183 | over any stream the history length, every entry but the last, the input field and the open chat are unchanged |
| `Engine.ApplyStreamSnoc` | ContentView.swift:169-183 | handling a stream and then one more line equals handling the longer stream, in arrival order |
| `Engine.FragmentsAccumulate` | ContentView.swift:169-181 | after lines without a completion record the accumulator equals its start value followed by all fragments in order; context, date and chat list are unchanged |
| `Engine.LastEntryShowsAccumulator` | ContentView.swift:179-181 | after a run of lines without a completion record that contains a fragment, the last entry is an assistant entry showing the accumulator and the chat's messages equal the history |
| `Engine.SilentStreamIsNoOp` | ContentView.swift:169-170 | a stream whose lines all failed to decode changes nothing |
| `Engine.UndecodedLinesIrrelevant` | ContentView.swift:169-170 | dropping the undecodable lines from any stream does not change its effect |
| `Engine.AllChatGrowsOnlyByChat` | ContentView.swift:173-175 | the chat list keeps its earlier contents and grows only by the open chat |
| `Engine.ExchangeHistory` | ContentView.swift:127-183 | for a submit followed by fragments and a completion record: earlier entries kept, the user entry holds the trimmed text and context, the assistant entry holds the old accumulator followed by all fragments, and the chat's messages equal the history exactly when a fragment arrived |
| `Engine.ExchangeCompletion` | ContentView.swift:171-177 | after a full exchange the accumulator is empty, the context is the completion record's (or empty), the date is stamped, and the chat was appended to the list exactly when the context was empty at submit time |
| `Engine.InterruptedExchange` | ContentView.swift:167-186 | a reply that ends without a completion record leaves the partial text in the entry and the accumulator, and context, date and chat list untouched |
| `Scenarios.FirstExchange` | ContentView.swift:127-183 | "Hello" on a fresh chat, answered "Hi", " there", completed with [7, 8, 9]: request with empty context, answer "Hi there", context [7, 8, 9], chat added to the list |
| `Scenarios.FollowUpExchange` | ContentView.swift:171-177 | a follow-up on a chat with context [7, 8, 9] sends that context, ends with [7, 8, 9, 10] and leaves the chat list alone |
| `Scenarios.InterruptedReply` | ContentView.swift:169-186 | a reply cut off after "Par" leaves "Par" in the entry and the accumulator and the context unchanged |
| `Scenarios.RepeatedRegistration` | ContentView.swift:173-176 | two completion records without a context append the same chat twice |
| `ChatViews.ChatView.constructor` | ContentView.swift:58-62 | the view opens on the given chat and chat list, with the history equal to the chat's messages |
| `ChatViews.ChatView.NewChat` | ContentView.swift:70-71 | a fresh chat with topic "New Chat", no messages, no context and no dates is opened, and the history becomes empty; nothing else changes |
| `ChatViews.ChatView.SubmitInput` | ContentView.swift:127-146 | the new state is `Submit` of the old and the returned request is `RequestFor` of the old; the chat object is untouched |
| `ChatViews.ChatView.HandleLine` | ContentView.swift:170-182 | the new state is `ApplyLine` of the old; topic and creation date unchanged |
| `ChatViews.ChatView.ReceiveStream` | ContentView.swift:169-183 | the loop leaves the state that `ApplyStream` gives for the whole stream |
| `ChatViews.ChatView.SendMessage` | ContentView.swift:127-147 | blank input changes nothing and sends nothing; otherwise the state is the submit followed by the whole reply |

## Left out

- SwiftUI view bodies and layout, `Sidebar`, `ContentView` and the previews: these are presentation.
- URL construction, `URLRequest` setup and `URLSession.shared.bytes` / `stream.lines`: these are network I/O. The request is the `GenerateRequest` value, and the reply is a sequence of lines given as input.
- `JSONSerialization` of the request body and `JSONDecoder` inside `parse`: these are library calls. Each line comes already decoded, or as `None`.
- A transport error thrown inside the loop ends it, and the handler only logs. This is modelled as the stream simply ending (`InterruptedExchange`).
- `Task { await ... }` dispatch and any interleaving of a "New Chat" press with a running reply: these are concurrency.
- `print` logging.
- `UUID()` and `Date()` are opaque values passed in, not generated.
- The timing and counter fields of `OllamaResponse` and `done_reason` are carried but never used.
- Text input edits (the `TextField` binding): a client assigns `inputField` directly.
- Trimming is modelled on Unicode scalar values; grapheme clustering is not modelled.
- `Text.IsWhitespaceOrNewline`: the membership of Foundation's `whitespacesAndNewlines` set is not part of the code modelled here, so the model assumes it is U+0009..U+000D, U+0020, U+0085, U+00A0, U+1680, U+2000..U+200A, U+2028, U+2029, U+202F, U+205F and U+3000 (the Unicode separators, tab and line breaks). Any other character, U+200B ZERO WIDTH SPACE included, counts as non-blank; where the library's set differs, so does the model.
