# Portfolio site: verified model of its client hooks and API routes

The site is a personal portfolio: a Next.js front end and a FastAPI back end
on a Supabase database. The model covers the parts of it that are logic
rather than presentation.

**Front end**
- **Frame preloader.** The preloader creates 240 image slots and counts their
  completions: a load and a failed load both count. It becomes ready at 240, and a
  completion that arrives after unmount is ignored.
- **Scroll animator.** The animator maps scroll progress to a frame index and
  schedules draws. It cover-fits each frame to the canvas, resizes the canvas, and
  evaluates the keyframe tables of four overlay stages and the canvas exit fade.
- **Chat.** The chat hook appends the user's message before the request settles,
  then appends the reply or rolls the message back by id. The chat widget adds the
  submit guard, the open/close state and a get-or-create session id.
- **Contact drawer.** The drawer is a four-state status machine. The text it shows
  on failure is derived from the response's `detail` field.
- **Analytics hook.** The hook keeps a per-tab session id and builds the
  page-view event.

**Back end**
- **Key setting.** A comma-separated setting is parsed into a list of API keys.
- **Chat route.** The route rotates round-robin through the keys and retries at
  most once per key. It builds the message payload and turns every error into a
  500 response.
- **Analytics routes.** They cover the session and counter upserts, the
  distinct-visitor counts, the section counts and the top-five sort.
- **Cleanup route.** It applies the retention rules: old messages, old sessions
  and empty conversations are deleted, and the rows deleted are counted.
- **Monitor websocket.** It has a command responder and a connection list.
- **Request models.** The field constraints of the request and row models.

Modules mirror the source files, one each:

| source | module (file) |
|---|---|
| frontend/hooks/useImagePreloader.ts | `ImagePreloader` (image_preloader.dfy) |
| frontend/components/IdentityScroll.tsx, components/IdentityScroll.tsx | `IdentityScroll` (identity_scroll.dfy) |
| frontend/hooks/useChat.ts | `UseChat` (use_chat.dfy) |
| frontend/components/ChatWidget.tsx | `ChatWidget` (chat_widget.dfy) |
| frontend/components/ContactModal.tsx | `ContactModal` (contact_modal.dfy) |
| frontend/hooks/useAnalytics.ts | `UseAnalytics` (use_analytics.dfy) |
| backend/config.py | `Config` (config.dfy) |
| backend/routes/chat.py | `ChatRoute` (chat_route.dfy) |
| backend/routes/analytics.py | `AnalyticsRoute` (analytics_route.dfy) |
| backend/routes/cleanup.py | `CleanupRoute` (cleanup_route.dfy) |
| backend/routes/monitor.py | `MonitorRoute` (monitor_route.dfy) |
| backend/models.py | `Models` (models.dfy) |

Shared modules:
- `Wrappers`: `Option` and `Result`.
- `Text`: whitespace, strip and trim, split and join, decimal digits and padding.
- `SessionStore`: the get-or-create over browser storage.
- `Tables`: the database tables, as sequences of records with integer timestamps
  in seconds.

The model takes the source's own form. Stateful code becomes classes:
- the preloader state, the animator and the chat state;
- the widget, the drawer, the storage area and the key ring;
- the connection manager and the database.

Each method states its whole new state. Code with loops becomes methods with
loop invariants, proved against specification functions:
- the preloader's slot loop;
- the chat retry loop;
- the `set.add` and dictionary counting loops;
- the cleanup conversation loop;
- `broadcast`;
- the monitor receive loop.

Pure code becomes functions with lemmas. Things outside the program are
parameters:
- the current time;
- generated ids;
- the outcome of every external call: a Mistral attempt, a `fetch` reply, an
  image's completion, a websocket send.

### Where the source differs from its own documentation

The model follows the code in each case:
- **Frames are drawn before readiness, on every frame change.** The resize effect
  lists `currentFrame` and `isLoaded` among its dependencies
  (`frontend/components/IdentityScroll.tsx` 69-81). So it re-runs, and redraws
  the current frame without checking `isLoaded`, on mount, on every change of
  `currentFrame` and when loading finishes. The `isLoaded` check in the change
  handler (lines 58-66) therefore does not keep frames off the canvas before
  readiness: it decides only whether an extra draw is queued
  (`IdentityScroll.Animator.HandleResize`, `IdentityScroll.Animator.FrameChange`).
  Each such run also assigns the canvas size, which clears the canvas, so when a
  frame's image is not yet complete the canvas goes blank.
- **The stage hand-offs are not seamless.** At progress 0.2, 0.5 and 0.8 every
  overlay stage has opacity 0 (`IdentityScroll.AllStagesBlankAtBoundaries`).
- **The frame guard never fails.** The frame index is already clamped by the
  interpolation, so the change handler's `index <= 240` guard always holds
  (`IdentityScroll.FrameIndexInRange`).
- **Cover-fit offsets are never positive.** The drawn rectangle overflows the
  canvas on one axis and is cropped (`IdentityScroll.CoverFitCovers`).
- **`total_page_views` counts events, not the counter.** The statistics endpoint
  counts the `page_view` rows of the events table. It does not read the counter
  that `track_event` increments (`backend/routes/analytics.py` 98-106,
  `AnalyticsRoute.GetStats`).

## Model

| member | source | states |
|---|---|---|
| ImagePreloader.FrameLabelReadsBack | frontend/hooks/useImagePreloader.ts:22-23 | for frames 1..240 the zero-padded label is exactly four decimal digits and reads back as the frame number |
| ImagePreloader.FramePathInjective | frontend/hooks/useImagePreloader.ts:22-23 | distinct frames get distinct `/frames/frame_NNNN.webp` paths |
| ImagePreloader.Preloader.Mount | frontend/hooks/useImagePreloader.ts:13-42 | after the slot loop, slot 0 is a hole and slot i holds the image of frame i with its path; the hook is mounted, not loaded, and the counters are 0 |
| ImagePreloader.Preloader.OnComplete | frontend/hooks/useImagePreloader.ts:25-32 | while mounted the counter rises by exactly one and is published; readiness is set exactly when it reaches 240 and is never cleared; after unmount nothing changes |
| ImagePreloader.Preloader.OnLoad | frontend/hooks/useImagePreloader.ts:34-35 | a successful load has exactly the effect of `onComplete` |
| ImagePreloader.Preloader.OnError | frontend/hooks/useImagePreloader.ts:36-38 | a failed load has the same effect as a success, so failures count toward readiness |
| ImagePreloader.Preloader.Unmount | frontend/hooks/useImagePreloader.ts:48-50 | cleanup clears the liveness flag and changes nothing else |
| ImagePreloader.CounterBounded | frontend/hooks/useImagePreloader.ts:34-38 | when each slot completes at most once, the counter never passes 240, and the hook is loaded exactly when the counter is 240 |
| ImagePreloader.DistinctSlotsBounded | frontend/hooks/useImagePreloader.ts:19-41 | a duplicate-free sequence of slots from 1..240 has at most 240 entries |
| IdentityScroll.InterpolateAtBreakpoint | frontend/components/IdentityScroll.tsx:21 | the assumed `useTransform` takes each keyframe's value at its breakpoint |
| IdentityScroll.InterpolateClampsHigh | components/IdentityScroll.tsx:21 | beyond the last breakpoint the interpolation holds the last value |
| IdentityScroll.InterpolateBounded | frontend/components/IdentityScroll.tsx:130-144 | an interpolated value stays within any bounds that hold every keyframe value |
| IdentityScroll.RoundHalfUp | frontend/components/IdentityScroll.tsx:59 | `Math.round`: the result is the integer within half a unit, ties rounding up |
| IdentityScroll.FrameTableIsLine | frontend/components/IdentityScroll.tsx:21 | the frame mapping is the clamped line 1 + 239·p |
| IdentityScroll.FrameIndexInRange | frontend/components/IdentityScroll.tsx:21 | every progress value gives a frame in 1..240; p ≤ 0 gives 1 and p ≥ 1 gives 240 |
| IdentityScroll.FrameIndexMonotone | components/IdentityScroll.tsx:21 | the frame index is monotone in scroll progress |
| IdentityScroll.CoverFitCovers | frontend/components/IdentityScroll.tsx:34-51 | on a positive canvas the drawn rectangle keeps the image's aspect ratio and covers both axes; it is centred, with one offset 0 and the other ≤ 0 |
| IdentityScroll.FitHeightCovers | components/IdentityScroll.tsx:41-45 | an image relatively wider than the canvas is scaled to the canvas height and centred horizontally with a non-positive offset |
| IdentityScroll.FitWidthCovers | components/IdentityScroll.tsx:46-51 | a relatively taller image is scaled to the canvas width and centred vertically with a non-positive offset |
| IdentityScroll.TablesWellFormed | frontend/components/IdentityScroll.tsx:130-144 | every stage table, the exit fade and the frame table have strictly increasing breakpoints and one value per breakpoint |
| IdentityScroll.StageOpacityBounded | components/IdentityScroll.tsx:130-144 | every stage's opacity is in [0,1] at every progress value |
| IdentityScroll.AllStagesBlankAtBoundaries | frontend/components/IdentityScroll.tsx:130-144 | at progress 0.2, 0.5 and 0.8 every one of the four stages has opacity 0 |
| IdentityScroll.CanvasExitFade | frontend/components/IdentityScroll.tsx:92 | canvas opacity is 1 up to 0.9, strictly between 0 and 1 in between, and 0 from 1 on |
| IdentityScroll.Animator.Mount | frontend/components/IdentityScroll.tsx:23-81 | `currentFrame` starts at 1; the resize handler's first run sizes an attached canvas to the window and draws frame 1 if the guard allows |
| IdentityScroll.Animator.DrawImage | frontend/components/IdentityScroll.tsx:26-55 | with no canvas, no image, an incomplete image or a zero natural width the picture is left as it was; otherwise it shows that frame cover-fitted |
| IdentityScroll.Animator.OnScroll | frontend/components/IdentityScroll.tsx:58-66 | a new index bounded by 240 becomes `currentFrame`; a draw of it is queued only when loaded; the same index again changes nothing |
| IdentityScroll.Animator.RunAnimationFrame | components/IdentityScroll.tsx:61-64 | the oldest queued draw runs `drawImage` on its index and leaves the queue |
| IdentityScroll.Animator.HandleResize | frontend/components/IdentityScroll.tsx:69-81 | an attached canvas takes the window's inner size, which clears it, and the current frame is redrawn, loaded or not; a refused redraw leaves an attached canvas blank |
| IdentityScroll.Animator.FrameChange | frontend/components/IdentityScroll.tsx:58-88 | a change event that moves the index sets `currentFrame`, queues a draw only when loaded, and through the re-run resize effect shows the new frame (or a blank attached canvas) whether loaded or not; an index that does not move changes nothing |
| IdentityScroll.Animator.BecameLoaded | frontend/components/IdentityScroll.tsx:69-88 | when loading finishes, an attached canvas is resized and the current frame is shown, or the canvas left blank when its image cannot be drawn |
| IdentityScroll.Animator.LoadedEffect | frontend/components/IdentityScroll.tsx:84-88 | once loaded the current frame is drawn; before that nothing changes |
| UseChat.WithoutId | frontend/hooks/useChat.ts:62 | the filter keeps exactly the messages with a different id, and never lengthens the list |
| UseChat.WithoutIdAppend | frontend/hooks/useChat.ts:62 | the filter distributes over concatenation |
| UseChat.RollbackRestores | frontend/hooks/useChat.ts:59-62 | removing a fresh user message's id after appending it gives the list back |
| UseChat.ChatState.constructor | frontend/hooks/useChat.ts:11-14 | the hook starts with no messages, not loading and no error |
| UseChat.ChatState.LoadHistory | frontend/hooks/useChat.ts:17-28 | a fetched history replaces the list; a failed fetch leaves it unchanged |
| UseChat.ChatState.BeginSend | frontend/hooks/useChat.ts:30-42 | loading on, error cleared, the user message appended at the end |
| UseChat.ChatState.FinishSend | frontend/hooks/useChat.ts:44-65 | success appends the assistant message with the reply's text; failure sets the fixed error and removes every message with the user message's id; loading ends either way |
| UseChat.ChatState.SendMessage | frontend/hooks/useChat.ts:30-66 | a whole send: success leaves the user message then the reply at the end; failure with a fresh id leaves the list as it was, with the error set |
| UseChat.ChatState.ClearMessages | frontend/hooks/useChat.ts:68-70 | the list becomes empty and nothing else changes |
| SessionStore.StoredId | frontend/components/ChatWidget.tsx:15-16 | a stored id counts only when present and non-empty, as JavaScript truthiness reads it |
| SessionStore.GetOrCreate | frontend/hooks/useAnalytics.ts:5-16 | without a window the id is empty; a stored id is returned without writing; otherwise prefix + tail is stored and returned; afterwards the store holds the returned id |
| ChatWidget.ShouldSend | frontend/components/ChatWidget.tsx:34 | a submit goes ahead exactly when not loading and the input has a non-whitespace character |
| ChatWidget.SendDisabled | frontend/components/ChatWidget.tsx:192 | the send button is disabled exactly when a submit would be refused |
| ChatWidget.Widget.constructor | frontend/components/ChatWidget.tsx:13-25 | first render: closed, empty input, and the `chat_session_id` read from storage or created with prefix `chat_` |
| ChatWidget.Widget.Toggle | frontend/components/ChatWidget.tsx:44 | the floating button flips the open flag |
| ChatWidget.Widget.Close | frontend/components/ChatWidget.tsx:102 | the close button closes the panel |
| ChatWidget.Widget.Type | frontend/components/ChatWidget.tsx:185-188 | typing replaces the input, except while loading when the input is disabled |
| ChatWidget.Widget.Submit | frontend/components/ChatWidget.tsx:32-38 | a refused submit changes nothing; otherwise the raw input is sent once and the input is cleared whether or not the send failed |
| ContactModal.MsgTexts | frontend/components/ContactModal.tsx:48 | each error item gives its `msg`, a missing one giving "" as `join` writes it |
| ContactModal.ErrorText | frontend/components/ContactModal.tsx:43-53 | a list `detail` gives its messages joined by ", "; a non-empty string is used as is; no or empty detail gives "Transmission failed" |
| ContactModal.Displayed | frontend/components/ContactModal.tsx:63-68 | the shown text is the error's message unless that is empty or "Transmission failed", when it is the fallback |
| ContactModal.Caught | frontend/components/ContactModal.tsx:35-59 | an error is caught exactly when the reply is not an ok response |
| ContactModal.ListDetailShown | frontend/components/ContactModal.tsx:45-50 | a list `detail` shows its joined messages, or the fallback when that join is empty |
| ContactModal.NoDetailShowsFallback | frontend/components/ContactModal.tsx:52 | no detail, or an empty string detail, shows "Uplink failed. Try again." |
| ContactModal.Modal.constructor | frontend/components/ContactModal.tsx:12-19 | the drawer starts idle with an empty form and no error |
| ContactModal.Modal.OpenChanged | frontend/components/ContactModal.tsx:22-29 | opening resets status, error text and all four fields; closing changes nothing |
| ContactModal.Modal.EditName | frontend/components/ContactModal.tsx:129 | the name input replaces the name field and keeps the other fields, the status and the error text |
| ContactModal.Modal.EditEmail | frontend/components/ContactModal.tsx:140 | the e-mail input replaces only the e-mail field |
| ContactModal.Modal.EditSubject | frontend/components/ContactModal.tsx:150 | the subject input replaces only the subject field |
| ContactModal.Modal.EditMessage | frontend/components/ContactModal.tsx:161 | the message input replaces only the message field |
| ContactModal.Modal.BeginSubmit | frontend/components/ContactModal.tsx:33 | submitting first sets the status to sending |
| ContactModal.Modal.FinishSubmit | frontend/components/ContactModal.tsx:43-69 | an ok response gives success; any failure gives the error status with the derived text |
| ContactModal.SubmitDisabled | frontend/components/ContactModal.tsx:176 | the submit button is disabled exactly while sending |
| UseAnalytics.GetSessionId | frontend/hooks/useAnalytics.ts:5-16 | `analytics_session_id` is returned when stored, else a `session_` id is stored and returned; empty without a window |
| UseAnalytics.GetSessionIdTwice | frontend/hooks/useAnalytics.ts:8-15 | two calls in one tab return the same id and the second writes nothing |
| UseAnalytics.PageViewBody | frontend/hooks/useAnalytics.ts:21-31 | a body is sent exactly when there is a window, with exactly the keys `session_id`, `event_type`, `page_path` |
| UseAnalytics.PageViewAccepted | frontend/hooks/useAnalytics.ts:25-30 | the back end reads that body as a `page_view` of the current path with the other fields unset |
| Text.Strip | backend/config.py:42 | the strip is the slice of the input between a blank prefix and a blank suffix, has no whitespace at either end, and is empty exactly when the input is blank |
| Text.StripIdempotent | backend/config.py:42 | stripping twice is stripping once |
| Text.SplitOn | backend/config.py:42 | the pieces of `split` contain no separator and there is at least one |
| Text.SplitCount | backend/config.py:42 | `split` gives one more piece than there are separators |
| Text.JoinSplit | backend/config.py:42 | re-joining the pieces with the separator gives the input back |
| Text.PadStart | frontend/hooks/useImagePreloader.ts:22 | `padStart` reaches the width, ends with the input and is fill before it |
| Text.ParseDecimal | frontend/hooks/useImagePreloader.ts:22 | a number's decimal digits read back as the number |
| Config.GetOpenaiKeys | backend/config.py:40-42 | every key is stripped and non-empty, and there are at most one more keys than commas |
| Config.KeysWellFormed | backend/config.py:42 | every key the comprehension keeps has no surrounding whitespace and is non-empty |
| Config.KeysInOrder | backend/config.py:42 | the keys of `a,b` are those of `a` followed by those of `b`, so input order is kept |
| Config.KeysHaveNoComma | backend/config.py:42 | no key contains a comma |
| Config.SingleKey | backend/config.py:42 | a setting without commas gives its strip as the one key, or none when blank |
| Config.EmptyPieceDropped | backend/config.py:42 | an empty piece between two commas adds no key (`a,,b` gives the keys of a then b) |
| Config.LeadingCommaDropped | backend/config.py:42 | a leading comma adds no key |
| Config.BlankSettingHasNoKeys | backend/config.py:42 | a setting of only commas and whitespace gives no keys |
| ChatRoute.Escalated | backend/routes/chat.py:172-175 | whatever escapes the handler becomes a 500 whose detail is the fixed prefix followed by the exception's text |
| ChatRoute.KeyRing.constructor | backend/routes/chat.py:15-16 | the key list is the parsed setting and the index starts at 0 |
| ChatRoute.KeyRing.CurrentKey | backend/routes/chat.py:19-22 | the current key is the key at index mod length; with no keys there is none |
| ChatRoute.KeyRing.TryNextApiKey | backend/routes/chat.py:25-28 | the index advances by one mod the number of keys and stays in range |
| ChatRoute.AttemptCount | backend/routes/chat.py:116-156 | a request makes at most one attempt per key, and stops early only right after an answer |
| ChatRoute.KeyOfAttemptIsMod | backend/routes/chat.py:116-156 | attempt j of a request uses key (start + j) mod n |
| ChatRoute.AttemptKeysDistinct | backend/routes/chat.py:116 | the attempts of one request use distinct keys, so no key is tried twice |
| ChatRoute.KeyRing.TryAllKeys | backend/routes/chat.py:116-156 | the loop tries consecutive keys from the current index and stops at the first 200 reply, leaving the index on that key; if all fail it rotates n − 1 times and raises "All API keys exhausted" with the last error |
| ChatRoute.KeyRing.RequestCompletion | backend/routes/chat.py:112-175 | the retry loop plus the `not ai_response` check yields `Outcome` of the attempts, with the final index and keys used as in the loop |
| ChatRoute.Outcome | backend/routes/chat.py:116-175 | the request succeeds exactly when some attempt is the first answer and is non-empty; every failure is a 500 with the processing prefix; no keys gives the "Failed to get AI response" failure |
| ChatRoute.OutcomeOfAnswer | backend/routes/chat.py:135-138 | when attempt k is the first answer, the outcome is its text if non-empty and the no-response failure otherwise |
| ChatRoute.OutcomeWhenAllFail | backend/routes/chat.py:149-153 | when every attempt fails the outcome is the exhausted-keys failure with the last error, escalated |
| ChatRoute.FirstAnsweredIs | backend/routes/chat.py:135-138 | the attempt the loop breaks at is the first answered one |
| ChatRoute.BuildMessages | backend/routes/chat.py:106-109 | the payload is the system context followed by each history row's role and content, in order |
| AnalyticsRoute.UpsertSessionEffect | backend/routes/analytics.py:19-25 | after the session upsert the session has a row, all its rows were seen now, other sessions' rows are unchanged, and uniqueness is kept |
| AnalyticsRoute.UpsertCounterEffect | backend/routes/analytics.py:42-49 | after a counter upsert the counter reads the new value and every other counter reads as before |
| AnalyticsRoute.TrackEvent | backend/routes/analytics.py:12-51 | every event refreshes the session; only a `page_view` upserts the page-view counter to its current value plus one; no other table changes |
| AnalyticsRoute.TrackedCounters | backend/routes/analytics.py:28-49 | read back, the page-view counter rises by exactly one for a page view (from 0 when absent) and other counters are unchanged |
| AnalyticsRoute.LiveCount | backend/routes/analytics.py:167-176 | the live count is 0 exactly when every row is older than the cutoff, and the whole table exactly when none is |
| AnalyticsRoute.GetLiveVisitors | backend/routes/analytics.py:158-194 | the active count is the live count of the five-minute window, 0 exactly when no session was seen in it; total views is the counter's value, 0 when absent |
| AnalyticsRoute.TrackedSessionIsLive | backend/routes/analytics.py:19-25 | a session tracked within the last five minutes is counted live |
| AnalyticsRoute.DistinctSessions | backend/routes/analytics.py:74-79 | the `set.add` loop collects exactly the session ids of the events at or after the cutoff |
| AnalyticsRoute.SectionRows | backend/routes/analytics.py:111-117 | the section query returns exactly the section views at or after the cutoff |
| AnalyticsRoute.SectionRowsAppend | backend/routes/analytics.py:111-117 | the query keeps the rows' order and multiplicity: the rows of `a + b` are those of `a` followed by those of `b` |
| AnalyticsRoute.PageViewCountAppend | backend/routes/analytics.py:98-106 | the page-view count is additive over concatenation, so each event adds one exactly when it is a page view |
| AnalyticsRoute.CountSections | backend/routes/analytics.py:120-125 | the counting loop keys exactly the truthy section names, each counted by its number of occurrences, in first-appearance order |
| AnalyticsRoute.SortByViewsCorrect | backend/routes/analytics.py:130-131 | the sort orders by non-increasing views, is a permutation, and keeps ties in their original order |
| AnalyticsRoute.PopularSections | backend/routes/analytics.py:128-133 | exactly five entries are returned, or all of them when there are fewer than five sections |
| AnalyticsRoute.PopularSectionsCorrect | backend/routes/analytics.py:128-133 | the popular sections are five (or all, when fewer), by non-increasing views, each a counted section with its count; no section left out has more views than one returned; among entries with equal views, those kept come first in key order |
| AnalyticsRoute.GetStats | backend/routes/analytics.py:57-152 | visitors and live visitors are the distinct session counts of the 30-day and 5-minute windows; page views count the page-view events; the popular sections are the first five (or all) of the seven-day tally of section names, by non-increasing views, each with its occurrence count, with no section left out that has more views than one kept, and ties kept in first-appearance order |
| CleanupRoute.RecentMessages | backend/routes/cleanup.py:22-30 | the delete leaves exactly the messages at or after the cutoff |
| CleanupRoute.ExpiredMessages | backend/routes/cleanup.py:25-30 | the delete removes exactly the messages older than the cutoff |
| CleanupRoute.MessagesPartition | backend/routes/cleanup.py:64 | deleted and kept messages add up to all the messages |
| CleanupRoute.LiveSessions | backend/routes/cleanup.py:33-41 | the delete leaves exactly the sessions seen at or after the cutoff |
| CleanupRoute.ExpiredSessions | backend/routes/cleanup.py:36-41 | the delete removes exactly the sessions last seen before the cutoff |
| CleanupRoute.SessionsPartition | backend/routes/cleanup.py:65 | cleaned and kept sessions add up to all the sessions |
| CleanupRoute.KeptConversationsHaveMessages | backend/routes/cleanup.py:44-60 | the conversations kept are exactly those with a remaining message |
| CleanupRoute.OrphansHaveNoMessages | backend/routes/cleanup.py:56-60 | the conversations counted are exactly those without a message |
| CleanupRoute.ConversationsPartition | backend/routes/cleanup.py:46-60 | deleted and kept conversations add up to all the conversations |
| CleanupRoute.DroppingOrphanIds | backend/routes/cleanup.py:48-59 | deleting by id the conversations the loop found empty keeps exactly those with messages |
| CleanupRoute.DropEmptyConversations | backend/routes/cleanup.py:44-60 | the loop leaves exactly the conversations with a message and counts exactly the ones it deleted |
| CleanupRoute.CleanupOldData | backend/routes/cleanup.py:12-68 | messages over an hour old and sessions over ten minutes old are deleted, then every empty conversation; the counters and events are untouched; the report counts exactly the rows removed and carries the retention note |
| CleanupRoute.CleanupRetains | backend/routes/cleanup.py:13-19 | afterwards every message and session left is within its window, none inside it is lost, and the conversations left are exactly those with a message |
| MonitorRoute.Respond | backend/routes/monitor.py:77-102 | "ping" and only "ping" gives a pong; "status" gives the fixed status text; other `echo…` text gives "Echo: " + `data[5:]`; anything else gives "Unknown command: " + the text |
| MonitorRoute.DropPrefix | backend/routes/monitor.py:91 | Python `data[5:]`: the rest after five characters, empty when there are no more |
| MonitorRoute.EchoRoundTrip | backend/routes/monitor.py:88-93 | `echo ` + text echoes exactly the text back |
| MonitorRoute.ShortEchoIsEmpty | backend/routes/monitor.py:88-93 | an echo command of five characters or fewer echoes nothing |
| MonitorRoute.UnknownQuotesCommand | backend/routes/monitor.py:94-102 | distinct unknown commands get distinct replies |
| MonitorRoute.EncodeRoundTrip | backend/routes/monitor.py:77-102 | the frames can be told apart: reading a frame back with the helper `Decode` (no client is modelled) gives the response it encodes, so distinct responses give distinct frames |
| MonitorRoute.AnswerAll | backend/routes/monitor.py:73-102 | each received text gets exactly one reply, in order |
| MonitorRoute.RemoveFirst | backend/routes/monitor.py:18-19 | `remove` shortens the list by one when the item is present, and changes nothing otherwise |
| MonitorRoute.RemoveFirstRemovesOne | backend/routes/monitor.py:19 | `remove` takes away one copy of the item and nothing else |
| MonitorRoute.RemoveFirstCutsFirst | backend/routes/monitor.py:19 | `remove` cuts out exactly the first occurrence and keeps the rest in order |
| MonitorRoute.ConnectThenDisconnect | backend/routes/monitor.py:14-19 | connecting and then disconnecting a new connection gives the list back |
| MonitorRoute.Delivered | backend/routes/monitor.py:21-27 | the connections reached are exactly those whose send succeeds |
| MonitorRoute.ConnectionManager.constructor | backend/routes/monitor.py:11-12 | the manager starts with no connections |
| MonitorRoute.ConnectionManager.Connect | backend/routes/monitor.py:14-16 | `connect` appends the connection at the end |
| MonitorRoute.ConnectionManager.Disconnect | backend/routes/monitor.py:18-19 | `disconnect` removes the first occurrence, and fails leaving the list as it was when there is none |
| MonitorRoute.ConnectionManager.Broadcast | backend/routes/monitor.py:21-27 | a send is tried on every connection in order, and a failed send does not stop the rest |
| MonitorRoute.ConnectionManager.Session | backend/routes/monitor.py:70-108 | one websocket session answers every text in order and leaves on disconnect; a new connection leaves the list as it found it |
| Models.ParseChatMessage | backend/models.py:8-12 | a parsed chat message has a message of 1 to 1000 characters, with the fields read from the input |
| Models.ChatMessageRoundTrip | backend/models.py:11-12 | a chat message survives serialisation exactly when it is valid |
| Models.ParseRole | backend/models.py:27 | a role parses exactly when it is "user", "assistant" or "system" |
| Models.RoleRoundTrip | backend/models.py:27 | role names and parsed roles are inverse in both directions |
| Models.ParseAnalyticsEvent | backend/models.py:33-44 | an event parses exactly when `session_id` and `event_type` are present strings; each of the five optional fields is the value given, or none when the key is absent |
| Models.AnalyticsEventRoundTrip | backend/models.py:36-44 | every event survives serialisation |
| Models.ParseContact | backend/models.py:58-64 | a parsed submission has the required fields and satisfies the length constraints |
| Models.ContactRoundTrip | backend/models.py:61-64 | a submission survives serialisation exactly when its name has 2 to 100 characters, its subject is absent or at most 200, and its message has 10 to 2000 |
| Models.EmailUnchecked | backend/models.py:62 | validity never depends on the e-mail address |

## Left out

- **Floating point:** geometry and interpolation are over exact reals. IEEE rounding, NaN and Infinity from a zero-sized canvas are not modelled. `WiderThanCanvas` writes out how a zero canvas height compares.
- **Interpolation:** framer-motion's `useScroll`/`useTransform` are assumed to be clamped piecewise-linear interpolation (`IdentityScroll.Interpolate`). The blur filter strings are not modelled.
- **Browser and React runtime:**
  - React scheduling, re-renders and stale closures;
  - real `requestAnimationFrame` timing, which is modelled as a queue of pending draws;
  - canvas pixels;
  - image networking and decoding. Whether an image completes is a parameter.
- **Whitespace:** `Text.IsWhitespace` is space and `\t` to `\r`. The model uses this one set for both Python's `strip` and JavaScript's `trim`. The extra characters each of them removes are not modelled: for `strip`, the separators `\x1c` to `\x1f` and the Unicode spaces; for `trim`, the Unicode spaces and the byte-order mark.
- **Timestamps:** they are integer seconds. The source compares the ISO-8601 strings that `isoformat()` produces. These are not all the same width, because `isoformat()` leaves out the fraction when the microseconds are 0. Only times are compared, and the model takes the comparison to be the order of the times.
- **Database errors:** the database is assumed not to fail. Not modelled:
  - the `except` branches that turn a database error into a 500 in the analytics routes (backend/routes/analytics.py:53-54, 154-155, 196-199);
  - the `{"success": False, "error": …}` reply of the cleanup route (backend/routes/cleanup.py:70-71).
- AnalyticsRoute.GetStats: `recent_events` (the ten newest events) is not returned; it is a plain ordered query.
- AnalyticsRoute.GetLiveVisitors: the response's `timestamp` is not modelled.
- **Chat route:**
  - the database work of `send_message`: the conversation lookup and creation (backend/routes/chat.py:68-85) and the stored user and assistant messages (backend/routes/chat.py:88-95, 162-168);
  - the `GET /history` endpoint;
  - the portfolio context prompt text, which is a parameter of `ChatRoute.BuildMessages`;
  - the httpx transport to Mistral. Each attempt's outcome is given as a parameter, as an answer or as a failure with its error text.
- ChatRoute.BuildMessages: the history query is not modelled; the rows are a parameter. That query (backend/routes/chat.py:96-103) sorts by `created_at` ascending and keeps the first ten, so it returns the ten OLDEST messages of the conversation. Once a conversation has more than ten messages, the payload therefore holds neither the user message just stored nor the recent turns. The model promises only that the payload follows whatever rows it is given.
- ChatRoute.KeyRing: the rotation index is global state shared between concurrent requests. The model runs one request at a time.
- **Monitor route:**
  - the random `system_stats_generator` (backend/routes/monitor.py:33-64);
  - websocket accept and receive, and JSON string encoding. Frames are modelled as string maps.
- MonitorRoute.ConnectionManager.Broadcast: the model runs the loop over a list that does not change during the loop. In the source the loop walks the live `active_connections` list across each `await send_text`. A disconnect in another task during that await (backend/routes/monitor.py:18-19, 104-108) removes an element and shifts the list, so the loop can skip a connection. The model does not capture that interleaving.
- MonitorRoute.ConnectionManager.Disconnect: the `ValueError` of `list.remove` is returned as an error result rather than raised.
- ContactModal.FinishSubmit: the two-second timer that closes the drawer after success is not modelled.
- ContactModal.ErrorText: a `detail` that is neither a string nor a list of objects (a number, an object) is not modelled.
- **Files not modelled:**
  - backend/routes/contact.py, the Resend e-mail call;
  - backend/main.py, which is app wiring, CORS, the rate limiter and the background cleanup task;
  - backend/database.py, the database client;
  - frontend/lib/api.ts, the fetch wrappers;
  - the polling dashboards;
  - the presentational components and pages.
- UseChat.ChatState.LoadHistory: the fetched history is given as a parameter. The fetch itself is not modelled.
- **Generated values:** ids built from `Date.now()` and `Math.random()` are parameters, as are the tails of the session ids.
