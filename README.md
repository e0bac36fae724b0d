# Branching chat timeline — a Dafny model

This project models the core of a browser chat client for a hosted
language model. The user holds several conversations (chats). Each chat
has one flat, active timeline of messages. A user message that has been
edited carries a *version ledger*: every version keeps its own text and
images, plus the continuation (`subsequentMessages`) that followed it the
last time it was active.

The model covers:

- **Forking** (`handleEditMessage`). It stashes the current continuation
  into the active version, appends a new version, cuts the timeline after
  the edited message and adds a streaming placeholder.
- **Switching** (`handleVersionChange`). It stashes the current
  continuation, shows the target version's content and restores the
  target's stash as the new continuation.
- **Sending** (`handleSend`). It appends the user message and a
  placeholder, and titles a chat from its first message.
- **Streaming** (`processStream`). Each chunk overwrites the placeholder
  with everything received so far. The end of the stream finalizes the
  placeholder. A failure writes an error text, chosen by classifying the
  error message, into the placeholder.
- **Chat list operations** (`lib/storage.ts`) and **deleting** with the
  recency re-selection (`handleConfirmDelete`).
- **The provider boundary** (`lib/gemini.ts`). History conversion,
  message shaping and the one-slot session cache.
- **`truncateText`**.

Every React `setChats(prev => …)` updater is a pure function from the
list of chats to the new list. The component itself is the class
`Component.ChatInterface`: it has the fields `chats`, `currentChatId` and
`isLoading`, and its handler methods are proved equal to those functions.

The module-level variables of `lib/gemini.ts` are the class
`Gemini.GeminiService`. The provider SDK is abstracted: a session is
represented by the API key and the history it was created from. A send
returns the session it goes to and the shaped message.

Closing the chain of well-formedness proofs needs two hypotheses, because
generated ids and clock readings are parameters. The id of a new
placeholder must not already occur in the chats (`Component.FreshId`), and
for a send it must also differ from the id of the new user message.

Modules follow the source files:

- `Types`: the entities of `types.ts`, plus the version ledger fields
  that `ChatInterface.tsx` uses.
- `Utils`: `lib/utils.ts`.
- `Storage`: `lib/storage.ts`.
- `Seqs`: the JavaScript array methods used (`findIndex`,
  `filter`/`map`, the stable `sort`).
- `Gemini`: `lib/gemini.ts`.
- `Timeline`, `Stream` and `Component`: `components/ChatInterface.tsx`.
  - `Timeline` holds the fork and switch timeline logic and the send
    updaters.
  - `Stream` holds the stream updaters and error classification.
  - `Component` holds the component class and the whole-handler lemmas.

Where the model follows the code rather than the documented intent:

- **The data of an image.** It is `img.split(',')[1]`. That is the piece
  between the first and the second comma, and it is absent when the
  string has no comma. It is not "everything after the first comma".
- **Undoing an edit.** Going back one version right after an edit
  restores the earlier timeline only when the edited version was the last
  one. The new version is appended at the end, so the back arrow leads to
  the previously *last* version, not to the version that was edited
  (`Timeline.ForkThenBack` and `Timeline.ForkBackTarget`).
- **Round trips are exact only when settled.** Switching away and back
  restores what is displayed (`Timeline.View`). It restores the exact
  message only when the timeline is *settled*: the active version's stash
  is the current continuation and its content is what the message shows.
  There are two common ways for a timeline not to be settled:
  - Right after an edit, the new active version's stash is empty while the
    continuation is the placeholder (and later the answer). Switching away
    and back stores that continuation into the version, so the ledger
    differs from before even though the display is the same.
  - A version stores its images as a possibly empty list, while the message
    stores `undefined` for no images.
- **The version fields.** `MessageVersion`, `versions` and
  `currentVersionIndex` do not appear in `types.ts`. They are
  modelled with the shape in which `ChatInterface.tsx` builds and reads
  them.

## Model

| member | source | states |
|---|---|---|
| Utils.Substring | lib/utils.ts:12 | `substring(0, end)` is the prefix of length `end` clamped into [0, length] |
| Utils.TruncateText | lib/utils.ts:10-13 | a text that fits is returned unchanged; a longer one becomes exactly its first `length` characters followed by "..." |
| Utils.TruncateIdempotent | lib/utils.ts:10-13 | truncating a truncated text again changes nothing |
| Storage.CreateNewChat | lib/storage.ts:23-31 | the new chat has the given id and both times equal to the clock reading; without a first message it is empty and titled "New Chat"; with one, it holds exactly that message, and the title is the text's first min(length, 40) characters, or "New Chat" for an empty text |
| Storage.ReplaceById | lib/storage.ts:36 | same length; every chat with the updated chat's id is replaced by it, every other chat is kept at its position |
| Storage.UpdateChat | lib/storage.ts:33-39 | when the id is present, the chats with that id are replaced in place and all the others are kept; otherwise the updated chat is put in front |
| Storage.DeleteChatById | lib/storage.ts:41-43 | a chat is in the result exactly when it was in the input and its id differs; the result is never longer |
| Storage.DeleteConcat | lib/storage.ts:41-43 | deleting distributes over concatenation, so the survivors keep their relative order |
| Storage.DeleteAbsent | lib/storage.ts:41-43 | deleting an id no chat has returns the list unchanged |
| Storage.DeleteIdempotent | lib/storage.ts:41-43 | the result holds no chat with the id, and deleting again changes nothing |
| Storage.UpdateIdempotent | lib/storage.ts:33-39 | after an update the chat is in the list, and updating again with it changes nothing |
| Storage.UpdateThenDelete | lib/storage.ts:33-43 | updating a chat and then deleting its id is the same as only deleting it |
| Storage.ReplaceThenDelete | lib/storage.ts:36-42 | replacing by id and then deleting that id is the same as only deleting it |
| Seqs.FindIndex | components/ChatInterface.tsx:184 | `findIndex`: None exactly when no element matches; otherwise the first matching index |
| Seqs.SortIsPermutation | components/ChatInterface.tsx:144 | the stable descending sort only rearranges the chats |
| Seqs.SortIsDescending | components/ChatInterface.tsx:144 | the sorted chats are ordered from the largest key to the smallest |
| Seqs.SortHeadIsFirstMaximum | components/ChatInterface.tsx:144 | the first sorted element is the first element of the input whose key is maximal |
| Gemini.TrimStart | lib/gemini.ts:17 | the result is a suffix of the input, only JavaScript white space was removed, and it does not start with white space |
| Gemini.TrimEnd | lib/gemini.ts:17 | the result is a prefix of the input, only JavaScript white space was removed, and it does not end with white space |
| Gemini.Trim | lib/gemini.ts:17 | `trim()` is empty exactly when the text is blank; otherwise it starts and ends with a non-white-space character |
| Gemini.IndexOfComma | lib/gemini.ts:26 | None exactly when there is no comma; otherwise the position of the first comma |
| Gemini.UpToComma | lib/gemini.ts:26 | the longest comma-free prefix, stopped at a comma or at the end |
| Gemini.ImageData | lib/gemini.ts:26 | `split(',')[1]` is absent exactly when the string has no comma |
| Gemini.ImageDataOfDataUrl | lib/gemini.ts:26 | for `header,payload` with comma-free parts, the image data is exactly the payload |
| Gemini.ImageDataSplits | lib/gemini.ts:26 | the string is a comma-free head, a comma, the comma-free data, and a rest that is empty or starts with a comma |
| Gemini.ImageParts | lib/gemini.ts:22-29 | one inline JPEG part per image, in image order |
| Gemini.Kept | lib/gemini.ts:17 | no contract of its own: a message goes into the history when it is not streaming and its trimmed text is not empty |
| Gemini.EntryParts | lib/gemini.ts:19-34 | no contract of its own: the image parts when there are images, then the text part when the text is not empty; characterised by `Gemini.EntryShape` and computed by `Gemini.BuildParts` |
| Gemini.Entry | lib/gemini.ts:36-39 | no contract of its own: the record with the message's role and its parts |
| Gemini.History | lib/gemini.ts:14-41 | no contract of its own: `filter` then `map`; characterised by `Gemini.HistorySelectsKept` and computed by `Gemini.ConvertToHistory` |
| Gemini.HistorySelectsKept | lib/gemini.ts:14-41 | the history has one record per message that is neither streaming nor blank, in the original order; each record comes from such a message and keeps its role; no such message is skipped |
| Gemini.EntryShape | lib/gemini.ts:18-39 | a kept message's record keeps the role and holds one image part per image, in order, followed by exactly one text part |
| Gemini.BuildParts | lib/gemini.ts:19-34 | the push loop builds the image parts and then the text part when the text is not empty |
| Gemini.HistoryStep | lib/gemini.ts:16-18 | one more message adds its record exactly when it is kept |
| Gemini.ConvertToHistory | lib/gemini.ts:14-41 | the loop computes exactly the filtered and mapped history |
| Gemini.MessageInputOf | lib/gemini.ts:79-95 | without images the message is the plain text; otherwise it is the image parts in order followed by a single text part, which is there even for an empty text |
| Gemini.InputMatchesEntry | lib/gemini.ts:79-95 | a prompt with images and text is shaped exactly like the history record the same message later becomes |
| Gemini.SendBindsSession | lib/gemini.ts:66-98 | a send fails exactly when a session is needed and there is no client; after a successful send the cache holds the session it used, bound to the chat |
| Gemini.SessionReuse | lib/gemini.ts:72-75 | a cached session of the same chat is reused unchanged and the history passed in is ignored; otherwise the new session is built from exactly the converted history |
| Gemini.SecondSendReuses | lib/gemini.ts:72-75 | once a client exists, a second send to the same chat needs no new session and leaves the state as the first one did |
| Gemini.AfterSend | lib/gemini.ts:72-75 | no contract of its own: the cache is rebuilt from the converted history when it holds no session for the chat and a client exists, and is kept otherwise; characterised by `Gemini.SessionReuse` |
| Gemini.SendResult | lib/gemini.ts:66-97 | no contract of its own: the "Gemini client not initialized" error when a session is needed without a client, otherwise the session used and the shaped message; characterised by `Gemini.SendBindsSession` |
| Gemini.Reset | lib/gemini.ts:61-64 | after `resetChat` every chat needs a new session, and the client is kept |
| Gemini.GeminiService.constructor | lib/gemini.ts:5-7 | no client, no session, no chat id |
| Gemini.GeminiService.InitializeGemini | lib/gemini.ts:9-11 | only the client changes |
| Gemini.GeminiService.CreateChatSession | lib/gemini.ts:43-59 | throws "Gemini client not initialized" without a client and changes nothing; otherwise it caches and returns a session from the converted history, bound to the chat id |
| Gemini.GeminiService.ResetChat | lib/gemini.ts:61-64 | the state becomes `Reset` of the old state |
| Gemini.GeminiService.SendMessageStream | lib/gemini.ts:66-97 | the result and the new state are `SendResult` and `AfterSend` of the old state |
| Timeline.UpdateChatById | components/ChatInterface.tsx:183-197 | the shared shape of the updaters: a missing chat leaves the list unchanged; otherwise only the first chat with the id is replaced by its transformed copy |
| Timeline.SeedVersions | components/ChatInterface.tsx:366-373 | no contract of its own: the existing versions, or one seed version holding the message's current text, images and time with an empty stash; its use is stated by `Timeline.ForkTimeline` |
| Timeline.Placeholder | components/ChatInterface.tsx:299-306 | no contract of its own: the empty, streaming model message with the new id and time, without images, citations or versions (also lines 398-404) |
| Timeline.EditAllowed | components/ChatInterface.tsx:327-338 | no contract of its own: the guards of the edit: a selected chat, not loading, chat and message found, the message written by the user; its effect is stated by `Timeline.EditChats` |
| Timeline.SwitchAllowed | components/ChatInterface.tsx:419-435 | no contract of its own: the guards of a switch: a selected chat, not loading, chat and message found, a ledger, a target in range; its effect is stated by `Timeline.ChangeVersionChats` |
| Timeline.FirstMessageTitle | components/ChatInterface.tsx:289-291 | no contract of its own: the first 40 characters, followed by "..." when the text is longer; `Timeline.FirstMessageTitleTruncates` relates it to `truncateText` |
| Timeline.SendHistory | components/ChatInterface.tsx:321-322 | no contract of its own: the selected chat's messages as seen by the handler followed by the new user message, or the user message alone when the chat is missing; its use is stated by `Component.ChatInterface.Send` |
| Timeline.Opposite | components/ChatInterface.tsx:418 | the opposite direction cancels the given one |
| Timeline.SameIdsSameIndex | components/ChatInterface.tsx:184 | an update that keeps every id keeps the position `findIndex` finds |
| Timeline.StashAt | components/ChatInterface.tsx:376-382 | only version `k` changes, and only its stash, and only when `k` is in range |
| Timeline.ForkTimeline | components/ChatInterface.tsx:342-404 | the messages before the edited one are kept; the edited message keeps every field but shows the new text, the new images (absent when there are none), the new ledger and the index of its last version; a streaming empty placeholder follows. The ledger grows by one new, last, active version with an empty stash; the previously active version (when in range) stashes the old continuation; every other version is unchanged; an unedited message gets a seed version first |
| Timeline.SwitchTimeline | components/ChatInterface.tsx:421-468 | a switch happens exactly when the message has a ledger and the target index is in range. The messages before are kept; the message keeps its identity, shows the target's text and images and points at the target; its ledger has the old continuation stashed in the version left; the continuation becomes the target's stash |
| Timeline.ForkKeepsWellFormed | components/ChatInterface.tsx:359-410 | a fork keeps every ledger, nested stashes included, consistent |
| Timeline.SwitchKeepsWellFormed | components/ChatInterface.tsx:421-468 | a switch keeps every ledger consistent |
| Timeline.SwitchSettles | components/ChatInterface.tsx:437-461 | right after a switch, the active version's stash is exactly the continuation and the message shows exactly that version |
| Timeline.SwitchRoundTrip | components/ChatInterface.tsx:418-469 | a switch and the switch back restore the surrounding messages and what the message displays, and the active index |
| Timeline.SwitchRoundTripExact | components/ChatInterface.tsx:418-469 | from a settled timeline, the switch back restores the timeline exactly |
| Timeline.ForkThenBack | components/ChatInterface.tsx:359-468 | when the edited version was the last one, going back one version after the edit restores the pre-edit timeline and display |
| Timeline.ForkBackTarget | components/ChatInterface.tsx:375-389 | in general, the arrow back after an edit leads to the previously last version and shows its content and its stash; when the edit was made from another version, that last version is unchanged |
| Timeline.ForkBackForward | components/ChatInterface.tsx:359-468 | going back and forward again after an edit restores the edited display with the placeholder after it |
| Timeline.EditChats | components/ChatInterface.tsx:326-410 | the chats are unchanged exactly when a guard refuses (no chat, loading, no chat or message found, not a user message); otherwise only the current chat changes: its timeline is forked, its time is stamped, and its id, title and creation time stay |
| Timeline.ChangeVersionChats | components/ChatInterface.tsx:418-469 | the chats are unchanged exactly when a guard refuses (no chat, loading, not found, no ledger, out of range); otherwise only the current chat's timeline is switched |
| Timeline.HandlersKeepWellFormed | components/ChatInterface.tsx:326-469 | the edit and switch handlers keep the ledger invariant of every chat |
| Timeline.UserMessage | components/ChatInterface.tsx:259-276 | the new user message has the user id and the clock reading, is not streaming, shows the text and the images (absent when there are none), and has exactly one version, holding the same text and images with an empty stash, as its active version; its ledger is consistent |
| Timeline.FirstMessageTitleTruncates | components/ChatInterface.tsx:289-291 | the first-message title is `truncateText(text, 40)` and at most 43 characters long |
| Timeline.SendChats | components/ChatInterface.tsx:281-319 | a missing chat leaves the chats unchanged; otherwise exactly the user message and the placeholder are appended, an empty chat is titled `truncateText(text, 40)`, the time is stamped, and every other chat is unchanged |
| Timeline.SendKeepsWellFormed | components/ChatInterface.tsx:268-319 | sending keeps the ledger invariant of every chat |
| Stream.AccumulatedTextAppend | components/ChatInterface.tsx:165-173 | the text of consecutive runs of chunks is the concatenation of their texts |
| Stream.AccumulatedTextStep | components/ChatInterface.tsx:169-173 | a chunk without text leaves the text unchanged, and a chunk with text appends it |
| Stream.MapBot | components/ChatInterface.tsx:187-191 | exactly the messages with the placeholder's id are transformed, in place |
| Stream.ChunkChats | components/ChatInterface.tsx:183-197 | a missing chat leaves the list unchanged; otherwise only the answered chat changes, and in it only the messages with the placeholder's id, which get the text so far and the citations (absent when there are none) |
| Stream.FinalizeChats | components/ChatInterface.tsx:201-218 | a missing chat leaves the list unchanged; otherwise only the answered chat changes: its placeholder stops streaming and gets the finishing time, and so does the chat's update time |
| Stream.FailChats | components/ChatInterface.tsx:238-250 | a missing chat leaves the list unchanged; otherwise only the answered chat changes: its placeholder gets the classified error text and stops streaming, keeping its place and id |
| Stream.Streamed | components/ChatInterface.tsx:161-250 | the list keeps its length and is unchanged when the chat is missing; the rest is stated by `Stream.StreamOutcome` |
| Stream.ErrorText | components/ChatInterface.tsx:223-235 | no contract of its own: the exact text the source shows for each category, the generic apology for Unknown |
| Stream.ChunkOverwrite | components/ChatInterface.tsx:183-197 | a later chunk update overwrites an earlier one, so only the text and citations received so far matter |
| Stream.StreamIgnoresMissingChat | components/ChatInterface.tsx:184-185 | every stream update leaves the chats alone when the chat has gone |
| Stream.StreamOutcome | components/ChatInterface.tsx:161-250 | only the answered chat changes, and in it only the placeholder. After completion it holds all text and citations and is stamped, and so is the chat; after a failure it holds the error text; the id, title and creation time stay, and the message count is unchanged |
| Stream.ConsumedShape | components/ChatInterface.tsx:183-197 | the chunk updates change only the placeholder of the answered chat and keep every id |
| Stream.StreamCompletes | components/ChatInterface.tsx:201-218 | for a placeholder created at any time, after completion it holds the concatenated chunk texts and the citations, is no longer streaming and carries the finishing time |
| Stream.StreamErrorRecovered | components/ChatInterface.tsx:238-250 | after a failure the placeholder stays in place with its id, shows the classified error text and is no longer streaming |
| Stream.StreamKeepsWellFormed | components/ChatInterface.tsx:183-250 | the stream keeps the ledger invariant when the answered id carries no ledger |
| Stream.Contains | components/ChatInterface.tsx:226-234 | `includes` holds exactly when the fragment occurs at some position |
| Stream.OccursShift | components/ChatInterface.tsx:226-234 | past the first position, the occurrences are those of the rest of the string |
| Stream.ContainsInfix | components/ChatInterface.tsx:226-234 | a string contains every fragment it is built around |
| Stream.Classify | components/ChatInterface.tsx:223-236 | the category is matched by the message (or is Unknown), and no category tried earlier matches |
| Stream.ClassifyForbiddenFirst | components/ChatInterface.tsx:226-227 | a message that mentions 403 is classified as access denied, whatever else it mentions |
| Component.SortByRecency | components/ChatInterface.tsx:144 | no contract of its own: the stable sort by descending update time; characterised by `Component.SortByRecencyOrders` |
| Component.SortByRecencyOrders | components/ChatInterface.tsx:144 | the recency order is a permutation of the chats, sorted by descending update time, and its head is the first of the most recently updated chats |
| Component.SubsetKeepsWellFormed | components/ChatInterface.tsx:135 | chats taken from well-formed chats are well formed |
| Component.Answered | components/ChatInterface.tsx:162-250 | no contract of its own: a send that throws is a stream that fails at once with that error, otherwise the stream of the reply; its use is stated by `Component.ChatInterface.ProcessStream` |
| Component.FailedSendIsErrorUpdate | components/ChatInterface.tsx:163-250 | a send that throws is exactly the error update |
| Component.EditPlaceholderIdFresh | components/ChatInterface.tsx:356-404 | after an edit with a fresh placeholder id, every message carrying that id has no ledger |
| Component.EditStreamKeepsWellFormed | components/ChatInterface.tsx:326-416 | an edit followed by its stream keeps every ledger consistent |
| Component.SendPlaceholderIdFresh | components/ChatInterface.tsx:299-319 | after a send with a fresh and distinct placeholder id, every message carrying that id has no ledger |
| Component.SendStreamKeepsWellFormed | components/ChatInterface.tsx:256-324 | a send followed by its stream keeps every ledger consistent |
| Component.DeleteKeepsWellFormed | components/ChatInterface.tsx:133-146 | deleting and re-ordering by recency keeps every ledger consistent |
| Component.ChatInterface.constructor | components/ChatInterface.tsx:20-21 | no chats, no selected chat, not loading |
| Component.ChatInterface.ProcessStream | components/ChatInterface.tsx:161-254 | the chunk loop and its closing update produce exactly the stream of a successful send, or the error update of a failed send; loading ends either way and the session cache is `AfterSend` |
| Component.ChatInterface.Send | components/ChatInterface.tsx:256-324 | nothing happens without a selected chat; otherwise the send updates followed by the stream, with the chat's earlier messages plus the new one as history; the ledger invariant is kept |
| Component.ChatInterface.EditMessage | components/ChatInterface.tsx:326-416 | nothing happens when a guard refuses; otherwise the fork followed by the stream, with the messages before the edited one as history; the ledger invariant is kept |
| Component.ChatInterface.ChangeVersion | components/ChatInterface.tsx:418-469 | the chats become the switched chats; the selection and the loading flag stay; the ledger invariant is kept |
| Component.ChatInterface.NewChat | components/ChatInterface.tsx:97-103 | an empty chat is put first and selected, and the session cache is reset |
| Component.ChatInterface.SelectChat | components/ChatInterface.tsx:105-111 | only the selection changes |
| Component.ChatInterface.ConfirmDelete | components/ChatInterface.tsx:132-159 | a delete-one request without a chat id changes nothing; a request with one deletes that chat; clear-all leaves one new selected chat |
| Component.ChatInterface.DeleteChat | components/ChatInterface.tsx:133-151 | the chat is removed. When it was not selected, nothing else changes. When it was selected, the rest is sorted by recency and the first is selected, or a new chat is created when none remain; the session cache is reset in both cases |
| Component.ChatInterface.ClearAllChats | components/ChatInterface.tsx:152-156 | exactly one new, selected chat remains, and the session cache is reset |

## Left out

- Persistence: `getChats`, `saveChats` and the local storage key (lib/storage.ts:3-21) are I/O. So is the effect that saves on every change (components/ChatInterface.tsx:91-95).
- The mount effect (components/ChatInterface.tsx:49-63) is left out. It reads storage and otherwise sorts and selects as `DeleteChat` does, or creates a new chat.
- Utils.Substring: lengths and positions count Unicode characters, while JavaScript's `substring` counts UTF-16 code units. For text outside the Basic Multilingual Plane (emoji, for instance) the clamp and the cut differ, and JavaScript can cut a surrogate pair in half.
- Utils.TruncateText: the length test and the cut count Unicode characters rather than UTF-16 code units, so text with characters outside the Basic Multilingual Plane is truncated later than by `truncateText`.
- Storage.CreateNewChat: the 40-character title counts Unicode characters rather than the UTF-16 code units of `slice(0, 40)`.
- Timeline.FirstMessageTitle: the 40-character title of a first message counts Unicode characters rather than the UTF-16 code units of `slice` and `length`.
- Timeline.FirstMessageTitleTruncates: it relates the two titles in the same character measure. Here too the model counts Unicode characters, not UTF-16 code units.
- Timeline.SendChats: the title it gives an empty chat counts Unicode characters, not UTF-16 code units.
- Ids and clocks: `generateId`, `Date.now()` and `Math.random` are parameters (`Timeline.ForkIds`, `Timeline.SendIds`, `now`). A handler that reads the clock several times is modelled with one reading.
- Component.ChatInterface.Send: it keeps the ledger invariant only under the hypothesis that the placeholder id is fresh and differs from the user message id.
- Component.ChatInterface.EditMessage: it keeps the ledger invariant only under the hypothesis that the placeholder id is fresh. Random ids are meant to give that, but the model cannot derive it.
- Timeline.ForkThenBack: it requires the edited version to be the last one, because with any other active version the code does not restore the earlier timeline. `Timeline.ForkBackTarget` states what happens then.
- Component.SortByRecencyOrders: stability (equal times keep their order) is stated for the head of the sorted list only, which is the chat that gets selected. The order of the other tied chats is not stated.
- React batching and staleness are left out. Each updater is applied to the state the handler saw when it was called. The edit updater reuses the message index computed from the render state, and the send history uses the render-time chat. The model treats the render state and `prev` as equal.
- Asynchrony is left out. A handler and its stream run to completion before the next handler.
- The provider SDK is abstracted (`Gemini.Session`, `Gemini.Request`):
  - the model name, the system instruction and the search tool passed to `chats.create` (lib/gemini.ts:48-55);
  - the network call itself;
  - the shape of a response chunk beyond its text and citations.
  The stream of chunks and how it ends are inputs.
- The check that throws "Failed to create chat session" (lib/gemini.ts:77) cannot fire once a session has been created, so it is not modelled.
- The error value in `processStream` is modelled as its message string. `error.message || error.toString()` is not modelled.
- Timeline.StashAt: a corrupt `currentVersionIndex` outside the version list would make `handleVersionChange` write an extra array slot or property. The model leaves the ledger unchanged in that case. Such an index never arises from the handlers (`Timeline.HandlersKeepWellFormed`).
- User interface state is left out: the sidebar, the modals' open/closed and text fields, the image viewer, scrolling and rendering (`MessageBubble`, `Sidebar`, `LandingPage`, `ConfirmModal`).
- Integers are unbounded. Clock readings never approach the limits of JavaScript numbers.
