# Q&A Dashboard — a Dafny model of its sequential core

The Q&A Dashboard is a live question board. Visitors post questions, logged-in
users mark them answered or escalate them, anyone can answer, and every
browser showing the board is kept current over a WebSocket push channel.

- **Backend.** A FastAPI application over SQLite:
  - `backend/app/db.py` holds the tables;
  - `backend/app/api.py` holds the HTTP handlers;
  - `backend/app/main.py` holds the broadcaster and the socket endpoint.
- **Frontend.** A Next.js client:
  - `pages/index.js` is the board;
  - `components/QuestionForm.js`, `components/QuestionList.js` and `components/WebSocket.js` are its parts;
  - `pages/register.js` is the sign-up page.

The project models the sequential logic under that glue, one Dafny module per
source file. Transport, SQL, JSON decoding and timers become inputs.

| module | file | source |
|---|---|---|
| `Store` | store.dfy | db.py: the three tables as sequences with their AUTOINCREMENT counters (`class Database`), the inserts, the single-row status updates, and `get_questions` with its sort |
| `Api` | api.dfy | api.py: the validator, the password policy, the list filter, and the submit, mark-answered, escalate and answer handlers, each returning the push event it broadcasts |
| `BroadcastHub` | broadcast_hub.dfy | main.py: the `{event, payload}` envelope, `broadcast` with its two loops over `connected_websockets` (`class Hub`), and the socket endpoint |
| `PushChannel` | push_channel.dfy | WebSocket.js: frame classification, and the reconnect state machine with one `shouldReconnect` flag per effect run (`class ChannelClient`) |
| `Reconcile` | reconcile.dfy | index.js: the query-parameter builder, snapshot replacement, the push-event toast policy, and the page state (`class Home`) |
| `QuestionForm` | question_form.dfy | QuestionForm.js: the blank check, the validation race settled by the first outcome (`class Settlement`), and the submit (`class Form`) |
| `QuestionList` | question_list.dfy | QuestionList.js: labels, the login gate, the answer prompt and the answers-panel toggle (`class ListPanel`) |
| `RegisterPage` | register_page.dfy | register.js: the password pattern and confirmation checks and the submit (`class Page`) |

Shared helpers:

- `Wrappers`: `Option` and `Result`.
- `Text`: character classes, trimming, ASCII lower-casing, substring search, decimal rendering, and integer parsing as Python's `int(str)` does it: decimal digits of every script (the Unicode 15.0 table), one sign, single underscores between digits, surrounding ASCII whitespace, and at most 4300 digits.
- `Js`: JavaScript values, truthiness, `?.`, `??`, `||`, and `String(v)`, which throws for an object with its own `toString`.
- `Sorting`: a stable sort by an integer-pair key, as Python's `sorted` is (`Sorting.SortByStable`).
- `Toasts`: notification levels.

Modelling choices:

- Timestamps are integers, and the server clock is a method parameter.
- The bcrypt hash is a parameter string.
- Which sockets are CONNECTED, which sends raise, whether a request
  succeeds, and what settles a validation request are all inputs.
- A JSON parse result is an `Option`.
- A frame the server encodes reaches the client as the same value.

The proofs tie the two sides of the wire together:

- The client reads back the envelope the server sends.
- The client blocks exactly the messages the server calls blank, as long as their whitespace is among the six ASCII whitespace characters both sides strip.
- The client obeys the server's validation verdict.
- For ASCII passwords without line breaks, the client's password pattern accepts exactly the passwords the server's pattern accepts.
- The labels and answer counts the list shows match the stored rows.

The query builder in index.js does not trim the values it keeps: only the
guest test trims, and whitespace-only values are sent as typed
(`Reconcile.OtherUserSentUntrimmed`, `Reconcile.QuerySentUntrimmed`).

## Model

| member | source | states |
|---|---|---|
| `PushChannel.Classify` | qa_dashboard/frontend/components/WebSocket.js:23-34 | the first `onEvent` call of every frame has a truthy event: a parse failure gives `("raw", text)`, a truthy `event` field gives `(event, payload)` unchanged, anything else (including `null` and non-objects) gives `("new_question", parsed)` |
| `PushChannel.OnMessage` | qa_dashboard/frontend/components/WebSocket.js:23-34 | a frame makes one call, the classified one; a parsed frame whose call throws gets a second call, `("raw", text)`, and only then |
| `PushChannel.ReconnectThenRerender` | qa_dashboard/frontend/components/WebSocket.js:40-56 | a run that loses its socket reconnects once; after a re-render the old socket's close schedules no timer, and only the new run's socket is open |
| `PushChannel.ChannelClient.constructor` | qa_dashboard/frontend/components/WebSocket.js:5-6 | both refs start out null, with no socket, no timer and no effect run |
| `PushChannel.ChannelClient.AtMostOnePending` | qa_dashboard/frontend/components/WebSocket.js:42-45 | in every reachable state at most one reconnect timer is pending |
| `PushChannel.ChannelClient.Connect` | qa_dashboard/frontend/components/WebSocket.js:14-17 | one new socket is opened and becomes `wsRef.current`; timers are untouched |
| `PushChannel.ChannelClient.RunEffect` | qa_dashboard/frontend/components/WebSocket.js:12-49 | an effect run starts with its own flag set to true and opens exactly one socket |
| `PushChannel.ChannelClient.OnClose` | qa_dashboard/frontend/components/WebSocket.js:40-46 | a close while the owning run is live cancels the pending timer and schedules exactly one new one with a fresh id (so N live closes make N schedulings, with no cap); a close after teardown schedules nothing |
| `PushChannel.ChannelClient.FireTimer` | qa_dashboard/frontend/components/WebSocket.js:44 | a fired timer calls its run's `connect`, which opens one socket and leaves nothing pending |
| `PushChannel.ChannelClient.Cleanup` | qa_dashboard/frontend/components/WebSocket.js:51-55 | teardown clears the run's flag, leaves no timer pending, and moves an open `wsRef.current` to closing, so that no socket is open |
| `PushChannel.ChannelClient.Rerender` | qa_dashboard/frontend/components/WebSocket.js:51-56 | a new `onEvent` tears the live run down and starts another: every old open socket is closing, the new run owns the only open socket, and the timers are unchanged |
| `Reconcile.DraftValues` | qa_dashboard/frontend/pages/index.js:26-40 | before deletion, each key holds its box's value unless the options override it, with the guest mapping applied to `user` |
| `Reconcile.Compact` | qa_dashboard/frontend/pages/index.js:42-44 | a key survives exactly when its value is not `undefined`, `null` or `""`, and it keeps its value |
| `Reconcile.BuildParams` | qa_dashboard/frontend/pages/index.js:26-44 | the key-deleting loop yields exactly the compacted draft parameters, a function of the options and the search state alone |
| `Reconcile.DeleteEmpty` | qa_dashboard/frontend/pages/index.js:42-44 | deleting each listed key whose value is `undefined`, `null` or `""` leaves exactly the compacted map |
| `Reconcile.QueryKey` | qa_dashboard/frontend/pages/index.js:37-44 | `q` is sent exactly when the text value (`opts.q ?? q`) is not empty, and then unchanged |
| `Reconcile.UserKey` | qa_dashboard/frontend/pages/index.js:28-44 | `user` is sent exactly when the guest-mapped user value is not empty, and then with that value |
| `Reconcile.StatusKey` | qa_dashboard/frontend/pages/index.js:39-44 | `status` is sent exactly when the status value is not empty, and then unchanged |
| `Reconcile.GuestBecomesZero` | qa_dashboard/frontend/pages/index.js:28-34 | a user value that trims and lower-cases to "guest" is sent as `"0"` |
| `Reconcile.OtherUserSentUntrimmed` | qa_dashboard/frontend/pages/index.js:28-38 | any other non-empty user string, whitespace-only ones included, is sent exactly as typed |
| `Reconcile.QuerySentUntrimmed` | qa_dashboard/frontend/pages/index.js:37 | the text parameter is sent untrimmed |
| `Reconcile.ClearSendsNoParams` | qa_dashboard/frontend/pages/index.js:85-89 | the Clear button's `""` options override any stale state, and the request carries no parameters |
| `Reconcile.GuestIsGuestToken` | qa_dashboard/frontend/pages/index.js:29-33 | "Guest" as typed counts as the guest token |
| `Reconcile.GuestOnlyFilter` | qa_dashboard/frontend/pages/index.js:28-44 | a search of only the user "Guest" is sent as `{user: "0"}` |
| `Reconcile.GuestOnlySearch` | qa_dashboard/frontend/pages/index.js:28-44 | any search holding only a guest token, in any case and with any surrounding whitespace, is sent as `{user: "0"}` |
| `Reconcile.Settle` | qa_dashboard/frontend/pages/index.js:46-50 | a response replaces the list with its data when that is truthy and with a truthy fallback (`[]`) otherwise; a failure leaves it unchanged |
| `Reconcile.LastCompletedWins` | qa_dashboard/frontend/pages/index.js:46-47 | whatever the completion order, the list ends as the body of the response that completed last; failures in between change nothing |
| `Reconcile.UserParam` | qa_dashboard/frontend/pages/index.js:28-34 | a guest token becomes `"0"`; every other value is kept as it is |
| `Reconcile.QuestionIdOf` | qa_dashboard/frontend/pages/index.js:59 | the id shown is the payload's `question_id` when that is truthy and `""` otherwise; it cannot become text exactly when the payload's id cannot |
| `Reconcile.Named` | qa_dashboard/frontend/pages/index.js:63-67 | a toast whose text embeds the id's text, or a throw exactly when the id cannot become text |
| `Reconcile.EventToast` | qa_dashboard/frontend/pages/index.js:55-70 | a falsy payload raises nothing; with a payload, `new_question` raises the info toast "New question received", `answered` a success toast "Question <id> answered", `escalated` a warning "Question <id> escalated", and `new_answer` an info toast "New answer received for question <id>"; the three that name the question throw exactly when its id cannot become text; every other kind raises nothing |
| `Reconcile.ToastPerKind` | qa_dashboard/frontend/pages/index.js:60-67 | with a payload, `new_question` raises the info toast "New question received", `answered` the success toast "Question <id> answered", `escalated` the warning "Question <id> escalated", and `new_answer` the info toast "New answer received for question <id>" |
| `Reconcile.EscalatedFrameWarns` | qa_dashboard/frontend/pages/index.js:59-65 | an `escalated` frame with a payload raises exactly one warning naming the payload's question id, or throws when that id cannot become text |
| `Reconcile.RawIsQuiet` | qa_dashboard/frontend/pages/index.js:55-70 | a `raw` call raises no toast and does not throw |
| `Reconcile.UnprintableIdFallsBackToRaw` | qa_dashboard/frontend/components/WebSocket.js:25-33 | a naming frame whose question id cannot become text throws, and is followed by a quiet `raw` call |
| `Reconcile.Home.constructor` | qa_dashboard/frontend/pages/index.js:20-24 | mounting starts from an empty list and issues one fetch with no parameters |
| `Reconcile.Home.EditSearch` | qa_dashboard/frontend/pages/index.js:16-18 | typing changes only the search inputs |
| `Reconcile.Home.FetchQuestions` | qa_dashboard/frontend/pages/index.js:26-46 | one request is issued, carrying the built parameters |
| `Reconcile.Home.OnFetchSettled` | qa_dashboard/frontend/pages/index.js:46-51 | the list is settled by the outcome, and a failure raises exactly one error toast |
| `Reconcile.Home.HandleWS` | qa_dashboard/frontend/pages/index.js:54-72 | a push event raises its toast, if any, and causes exactly one fetch; when the toast text throws, neither happens |
| `Reconcile.Home.OnFrame` | qa_dashboard/frontend/pages/index.js:54-72 | every frame causes exactly one fetch, made by its event or by the `raw` call after a throw, and raises its event's toast unless that throws |
| `Reconcile.Home.OnSearchSubmit` | qa_dashboard/frontend/pages/index.js:80-83 | searching issues one fetch with the current inputs |
| `Reconcile.Home.OnClearSearch` | qa_dashboard/frontend/pages/index.js:85-91 | clearing blanks the inputs and issues one request with no parameters |
| `Store.FindUserById` | qa_dashboard/backend/app/db.py:96-110 | returns a user with that id if one exists, and `None` exactly when none does |
| `Store.FindUserByName` | qa_dashboard/backend/app/db.py:80-94 | returns a user with that name if one exists, and `None` exactly when none does |
| `Store.FindQuestion` | qa_dashboard/backend/app/db.py:167-171 | returns a row with that id if one exists, and `None` exactly when none does |
| `Store.AnswersOf` | qa_dashboard/backend/app/db.py:228-229 | keeps exactly the answers with that question id, each as many times as the table holds it, and drops every other |
| `Store.WithStatus` | qa_dashboard/backend/app/db.py:165 | only rows with the id get the new status, whatever their old one; every other row is unchanged |
| `Store.WithStatusIdempotent` | qa_dashboard/backend/app/db.py:162-165 | setting a status twice is the same as setting it once |
| `Store.FindAfterUpdate` | qa_dashboard/backend/app/db.py:165-171 | the SELECT after the UPDATE finds a row exactly when one existed, and it is the old row with the new status |
| `Store.Database.constructor` | qa_dashboard/backend/app/db.py:18-57 | a fresh database has three empty tables |
| `Store.Database.AuthorName` | qa_dashboard/backend/app/db.py:124-125 | the recorded name is the author's username when the id is nonzero and names a user, otherwise "Guest" |
| `Store.Database.AddUser` | qa_dashboard/backend/app/db.py:66-77 | a new name is stored with a fresh id and `is_admin` false; a taken name fails and leaves the table unchanged |
| `Store.Database.AddQuestion` | qa_dashboard/backend/app/db.py:122-135 | appends one Pending row with a fresh id distinct from every existing id, the caller's user id and the author name; nothing else changes |
| `Store.Database.AddAnswer` | qa_dashboard/backend/app/db.py:202-222 | appends one answer with a fresh id, named "Guest" unless the id is nonzero and names a user; the question need not exist |
| `Store.Database.UpdateStatus` | qa_dashboard/backend/app/db.py:162-179 | the update touches only the target row; the result is `None` and the table unchanged when no row has the id |
| `Store.Database.MarkAnswered` | qa_dashboard/backend/app/db.py:162-179 | only the target row becomes Answered; `None` and no change for an unknown id |
| `Store.Database.EscalateQuestion` | qa_dashboard/backend/app/db.py:182-199 | only the target row becomes Escalated; `None` and no change for an unknown id |
| `Store.Database.AnswersFor` | qa_dashboard/backend/app/db.py:225-246 | exactly the answers to that question, with the table's multiplicities, newest first |
| `Store.Database.AnswersForOnce` | qa_dashboard/backend/app/db.py:225-246 | in a valid database each answer to the question is listed exactly once, because answer ids strictly increase |
| `Store.IncreasingIdsOnce` | qa_dashboard/backend/app/db.py:46-47 | a table whose `AUTOINCREMENT` answer ids strictly increase holds no row twice |
| `Store.Database.Views` | qa_dashboard/backend/app/db.py:141-156 | one item per stored row, in table order, each carrying that row's answers |
| `Store.Database.Snapshot` | qa_dashboard/backend/app/db.py:138-159 | a permutation of the items, sorted by `sort_key`, with items of equal key in table order |
| `Store.Database.GetQuestions` | qa_dashboard/backend/app/db.py:138-159 | the loop that attaches answers, followed by the sort, yields exactly the snapshot |
| `Store.Database.SeedAdminIfNeeded` | qa_dashboard/backend/app/db.py:248-259 | the admin is inserted only into an empty users table |
| `Store.QuestionKey` | qa_dashboard/backend/app/db.py:157-158 | the key's first part is 0 exactly for Escalated questions and 1 for the rest |
| `Store.SnapshotOrder` | qa_dashboard/backend/app/db.py:157-159 | every Escalated question comes before every other question, and within each group newer timestamps come first (Pending and Answered share a group) |
| `Store.SnapshotAnswersMatch` | qa_dashboard/backend/app/db.py:141-156 | every listed question is a stored row carrying exactly its own answers, newest first |
| `Store.SeedTwice` | qa_dashboard/backend/app/db.py:248-262 | running the seed twice is the same as running it once |
| `Sorting.SortBy` | qa_dashboard/backend/app/db.py:159 | the sort returns a permutation of its input |
| `Sorting.SortBySorted` | qa_dashboard/backend/app/db.py:157-159 | the sort's result is ordered by the key |
| `Sorting.SortByStable` | qa_dashboard/backend/app/db.py:159 | the items with any one key appear in the result in their input order |
| `Js.ToText` | qa_dashboard/frontend/pages/index.js:63-67 | the text that `+` and template literals produce: a string as it is, a number in decimal; `None` exactly when the conversion throws |
| `Js.JoinItems` | qa_dashboard/frontend/components/QuestionList.js:88 | an array's text; `None` exactly when one of its elements cannot become text |
| `Text.TrimEmptyIffBlank` | qa_dashboard/backend/app/api.py:56-58 | a message strips to nothing exactly when it is all whitespace |
| `Text.ToLowerIdempotent` | qa_dashboard/backend/app/api.py:65 | lower-casing twice is the same as lower-casing once |
| `Text.DecimalValue` | qa_dashboard/backend/app/api.py:120 | a character has a value below 10 exactly when it lies in the ten-character run of a listed Unicode zero digit, and it is its offset in that run |
| `Text.AsciiDecimalValue` | qa_dashboard/backend/app/api.py:75 | below U+0660 only the ASCII digits are decimal digits, with their usual values |
| `Text.AsciiDigitsIdempotent` | qa_dashboard/backend/app/api.py:120 | transforming digits to ASCII twice is the same as once |
| `Text.ParseInt` | qa_dashboard/backend/app/api.py:120 | an accepted text's value has at most 4300 decimal digits |
| `Text.ParseIntReadsEveryScript` | qa_dashboard/backend/app/api.py:120 | `int()` reads digits of any script as their ASCII counterparts |
| `Text.ArabicIndicDigit` | qa_dashboard/backend/app/api.py:120 | each Arabic-Indic digit U+0660 to U+0669 is a decimal digit of its own value |
| `Text.ArabicIndicTwoDigits` | qa_dashboard/backend/app/main.py:66 | any two Arabic-Indic digits, the first nonzero, parse as the two-digit number they spell |
| `Text.ParseDecimalString` | qa_dashboard/backend/app/api.py:118-120 | Python's `int()` reads back every integer whose decimal form has at most 4300 digits |
| `Text.AsciiUtf16Length` | qa_dashboard/frontend/pages/register.js:20 | on ASCII text the JavaScript length is the character count |
| `Api.QuestionJson` | qa_dashboard/backend/app/api.py:22-29 | the JSON of a row carries its id and its status name |
| `Api.ViewJson` | qa_dashboard/backend/app/api.py:227-231 | a listed question's JSON carries its id and its answers array |
| `Api.AnswersJson` | qa_dashboard/backend/app/api.py:229-231 | one JSON answer per answer, in order |
| `Api.ValidateQuestion` | qa_dashboard/backend/app/api.py:54-69 | valid exactly when the stripped message is non-empty, at most 500 characters, has an ASCII letter or digit and no listed word; otherwise the first failing check's fixed reason |
| `Api.ProfanityIgnoresCase` | qa_dashboard/backend/app/api.py:64-68 | lower-casing a message first does not change the profanity verdict |
| `Api.ServerPasswordOk` | qa_dashboard/backend/app/api.py:75-76 | an accepted password has at least 8 characters, no line feed before its last one, and an upper-case letter, a digit and a special character |
| `Api.PyLineBody` | qa_dashboard/backend/app/api.py:75 | `$` under `re.match` lets one final line feed through |
| `Api.RegisterError` | qa_dashboard/backend/app/api.py:71-79 | registration is refused exactly when the request-model bounds, the password policy or the free-name test fail, checked in that order |
| `Api.PolicyCheckedBeforeName` | qa_dashboard/backend/app/api.py:75-79 | a password outside the policy gets the policy 400 whether or not the name is taken |
| `Api.Register` | qa_dashboard/backend/app/api.py:71-81 | on the error path nothing is stored; otherwise exactly one non-admin user is added and echoed back |
| `Api.ResolveUser` | qa_dashboard/backend/app/api.py:117-126 | a missing or empty argument filters nobody out; text that `int()` accepts, in digits of any script, is an id; other text is looked up by name and filters by the found user's id; an unknown name is reported as such |
| `Api.NamedUserResolves` | qa_dashboard/backend/app/api.py:121-124 | a non-numeric name of a registered user resolves to that user's id, since names are unique |
| `Api.NamedUserFiltersById` | qa_dashboard/backend/app/api.py:121-149 | a user argument naming a registered user keeps exactly the questions with that user's id |
| `Api.Matches` | qa_dashboard/backend/app/api.py:144-168 | with no active filter every item passes; a window ending before it starts lets nothing through |
| `Api.Select` | qa_dashboard/backend/app/api.py:144-168 | every kept item matches every active filter |
| `Api.SelectIsSubsequence` | qa_dashboard/backend/app/api.py:144-168 | the filter keeps the original relative order |
| `Api.SelectCounts` | qa_dashboard/backend/app/api.py:144-168 | each matching item is kept as often as it occurs, and each other item is dropped |
| `Api.SelectStep` | qa_dashboard/backend/app/api.py:144-168 | filtering from one position on is that item if it matches, followed by the filtered rest |
| `Api.FilterItems` | qa_dashboard/backend/app/api.py:144-168 | the appending loop yields exactly the matching items in order |
| `Api.ListQuestions` | qa_dashboard/backend/app/api.py:105-185 | `[]` for an unknown user name; otherwise the matching items of `get_questions`, in order |
| `Api.NumericUserFiltersById` | qa_dashboard/backend/app/api.py:118-149 | a numeric user argument keeps exactly the questions with that user id |
| `Api.TimeWindowInclusive` | qa_dashboard/backend/app/api.py:128-166 | both time bounds are inclusive, and unparsable bounds are ignored |
| `Api.SubmitQuestion` | qa_dashboard/backend/app/api.py:92-102 | a 1 to 500 character message is stored as Pending with `user_id or 0`, answered with the row and `"answers": []`, and announced as `new_question`; any other message is a 422 that stores nothing |
| `Api.MarkQuestionAnswered` | qa_dashboard/backend/app/api.py:187-199 | an unknown id is a 404 with no event; a known id is marked and announced as `answered` |
| `Api.Escalate` | qa_dashboard/backend/app/api.py:201-213 | an unknown id is a 404 with no event; a known id is escalated and announced as `escalated` |
| `Api.FindView` | qa_dashboard/backend/app/api.py:225-232 | finds a listed question with that id if one exists, and `None` exactly when none does |
| `Api.FirstWithId` | qa_dashboard/backend/app/api.py:224-232 | the loop that stops at the first match yields exactly that item |
| `Api.PostedAnswerInPayload` | qa_dashboard/backend/app/api.py:222-236 | the question carried by `new_answer` already lists the answer just stored |
| `Api.PostAnswer` | qa_dashboard/backend/app/api.py:215-241 | the answer is stored, and the event carries the updated question, or just its id when the question is missing |
| `BroadcastHub.Envelope` | qa_dashboard/backend/app/main.py:30 | the frame's `event` and `payload` are the broadcast arguments |
| `BroadcastHub.EnvelopeRoundTrip` | qa_dashboard/backend/app/main.py:29-30 | for a non-empty event name, the client's classifier recovers exactly the broadcast event and payload |
| `BroadcastHub.EmptyEventNameIsNewQuestion` | qa_dashboard/backend/app/main.py:30 | an empty event name arrives as a `new_question` carrying the whole envelope |
| `BroadcastHub.Keep` | qa_dashboard/backend/app/main.py:32-49 | the kept sockets are exactly those that were CONNECTED and whose send succeeded |
| `BroadcastHub.Doomed` | qa_dashboard/backend/app/main.py:32-45 | `to_remove` holds exactly the sockets that were not CONNECTED or whose send raised |
| `BroadcastHub.Deliveries` | qa_dashboard/backend/app/main.py:33-36 | one frame per kept socket, in list order |
| `BroadcastHub.Without` | qa_dashboard/backend/app/main.py:47-49 | what remains after removal is exactly the listed sockets not marked |
| `BroadcastHub.RemoveFirstIsWithout` | qa_dashboard/backend/app/main.py:49 | on a list without duplicates, `list.remove` takes the socket out altogether |
| `BroadcastHub.WithoutAbsent` | qa_dashboard/backend/app/main.py:48 | removing a socket that is not listed changes nothing |
| `BroadcastHub.WithoutAbsentOrGone` | qa_dashboard/backend/app/main.py:48-49 | the membership guard skips a socket that is already gone, with no change |
| `BroadcastHub.WithoutDoomedIsKeep` | qa_dashboard/backend/app/main.py:47-49 | removing the marked sockets leaves exactly the survivors, in their original order |
| `BroadcastHub.KeepNoDuplicates` | qa_dashboard/backend/app/main.py:47-49 | pruning keeps the list free of duplicates |
| `BroadcastHub.DeliveredOnce` | qa_dashboard/backend/app/main.py:33-36 | each surviving socket receives exactly one frame per broadcast, and a pruned one none |
| `BroadcastHub.StatusFrames` | qa_dashboard/backend/app/main.py:68-70 | every status frame goes to the asking socket |
| `BroadcastHub.StatusFramesNonEmpty` | qa_dashboard/backend/app/main.py:68-70 | frames are sent exactly when some listed question has the id |
| `BroadcastHub.StatusReplyIffStored` | qa_dashboard/backend/app/main.py:65-72 | an id gets a status reply exactly when a question with that id is stored |
| `BroadcastHub.WithoutAppended` | qa_dashboard/backend/app/main.py:55-81 | unregistering the socket just appended restores the list |
| `BroadcastHub.Hub.constructor` | qa_dashboard/backend/app/main.py:26 | no socket is connected and nothing has been sent |
| `BroadcastHub.Hub.Accept` | qa_dashboard/backend/app/main.py:53-56 | an accepted socket is appended |
| `BroadcastHub.Hub.Release` | qa_dashboard/backend/app/main.py:78-81 | the socket is removed if it is still listed, and nothing else changes |
| `BroadcastHub.Hub.SendAll` | qa_dashboard/backend/app/main.py:32-45 | sends one frame to each socket that is CONNECTED and whose send succeeds, and returns the rest as `to_remove` |
| `BroadcastHub.Hub.RemoveAll` | qa_dashboard/backend/app/main.py:47-49 | every marked socket leaves the list and the rest keep their order |
| `BroadcastHub.Hub.Broadcast` | qa_dashboard/backend/app/main.py:29-49 | afterwards the list is exactly the survivors in their original order, and each survivor has received one envelope |
| `BroadcastHub.Hub.Receive` | qa_dashboard/backend/app/main.py:57-72 | text that `int()` accepts, in digits of any script, gets one status frame per question with that id; other text, or a failing send, sends nothing |
| `BroadcastHub.Hub.ReplyStatus` | qa_dashboard/backend/app/main.py:68-70 | one `status` frame per question with the id, in snapshot order, to the asking socket; nothing when the send raises |
| `BroadcastHub.Hub.Serve` | qa_dashboard/backend/app/main.py:51-81 | however a session ends, the socket list is as it was before the session |
| `QuestionForm.Rejection` | qa_dashboard/frontend/components/QuestionForm.js:25 | a rejection is `{valid: false, reason}` |
| `QuestionForm.FirstOutcome` | qa_dashboard/frontend/components/QuestionForm.js:12-38 | the promise settles with the first event's outcome, and with the timeout when nothing else happens |
| `QuestionForm.LaterEventsIgnored` | qa_dashboard/frontend/components/QuestionForm.js:12-38 | events after the first have no effect |
| `QuestionForm.Settlement.constructor` | qa_dashboard/frontend/components/QuestionForm.js:12 | a new promise is unsettled |
| `QuestionForm.Settlement.Resolve` | qa_dashboard/frontend/components/QuestionForm.js:23-38 | only the first `resolve` call counts |
| `QuestionForm.ValidateWithXhr` | qa_dashboard/frontend/components/QuestionForm.js:11-40 | with every event and the timer calling `resolve`, the result is the first outcome |
| `QuestionForm.BlankInputIsEmptyTrim` | qa_dashboard/frontend/components/QuestionForm.js:45 | the empty-or-trims-to-empty test is the all-whitespace test |
| `QuestionForm.BlankAgreesWithServer` | qa_dashboard/frontend/components/QuestionForm.js:45-48 | the client blocks exactly the messages the server would call blank, for messages whose whitespace is among the six ASCII whitespace characters both sides strip |
| `QuestionForm.ValidationError` | qa_dashboard/frontend/components/QuestionForm.js:52-56 | the submit goes ahead exactly when the result and its `valid` are truthy; otherwise the error is its reason or "Validation failed." |
| `QuestionForm.FirstEventError` | qa_dashboard/frontend/components/QuestionForm.js:12-56 | a timeout, a failed send, a non-2xx status and an unparsable body each show their own text; a parsed body decides by itself |
| `QuestionForm.ServerVerdictObeyed` | qa_dashboard/frontend/components/QuestionForm.js:20-23 | a 2xx verdict from the server is obeyed: the client submits exactly when it says valid, and otherwise shows its reason |
| `QuestionForm.VerdictReached` | qa_dashboard/frontend/components/QuestionForm.js:20-23 | any `{valid, reason}` body of a 2xx response settles the promise, and the form goes ahead exactly when `valid` is true, else shows `reason` |
| `QuestionForm.PayloadUserId` | qa_dashboard/frontend/components/QuestionForm.js:59 | a truthy `user.user_id` of a truthy user is what gets sent; otherwise 0 |
| `QuestionForm.SubmitPayload` | qa_dashboard/frontend/components/QuestionForm.js:59 | the submitted message is trimmed, and the user id is as above |
| `QuestionForm.ValidatedMessageFitsSubmit` | qa_dashboard/frontend/components/QuestionForm.js:59 | a message the server validated is 1 to 500 characters once trimmed, so `/submit` accepts it |
| `QuestionForm.Form.constructor` | qa_dashboard/frontend/components/QuestionForm.js:6-8 | an empty message, not loading, and no error |
| `QuestionForm.Form.Edit` | qa_dashboard/frontend/components/QuestionForm.js:80 | typing changes only the message |
| `QuestionForm.Form.HandleSubmit` | qa_dashboard/frontend/components/QuestionForm.js:42-70 | a blank message sets the blank error with no request and without touching `loading`; a failed validation sets its error with no submit; otherwise exactly one payload is posted, and success clears the message and error and calls `onSubmitted` once, while failure keeps the message and shows the fixed text; `loading` ends false |
| `QuestionForm.Form.Submit` | qa_dashboard/frontend/components/QuestionForm.js:58-69 | the trimmed payload is posted once; success clears the message and error and calls `onSubmitted` once; failure keeps the message and shows the fixed text; `loading` ends false |
| `QuestionList.UserLabel` | qa_dashboard/frontend/components/QuestionList.js:88 | `User <id>` with the id's decimal text; a throw exactly when the id cannot become text |
| `QuestionList.QuestionAuthor` | qa_dashboard/frontend/components/QuestionList.js:88 | a falsy user id shows "Guest"; a nonzero id with a username shows the username; rendering throws exactly when the `User <id>` label is needed and the id cannot become text |
| `QuestionList.AnswerAuthor` | qa_dashboard/frontend/components/QuestionList.js:140 | a username shows first; with neither a username nor an id, "Guest"; rendering throws exactly when the `User <id>` label is needed and the id cannot become text |
| `QuestionList.AnswerCount` | qa_dashboard/frontend/components/QuestionList.js:130 | an answers array shows its length; missing answers show 0 |
| `QuestionList.StoredQuestionAuthor` | qa_dashboard/frontend/components/QuestionList.js:88 | a stored question shows "Guest" for id 0, its username for a nonzero id with a name, and `User <id>` otherwise |
| `QuestionList.StoredAnswerAuthor` | qa_dashboard/frontend/components/QuestionList.js:140 | a stored answer shows its name whenever it has one, else "Guest" for id 0 and `User <id>` otherwise |
| `QuestionList.StoredAnswerCount` | qa_dashboard/frontend/components/QuestionList.js:130 | a listed question's count is the number of its answers |
| `QuestionList.AnswerPayload` | qa_dashboard/frontend/components/QuestionList.js:59-63 | the payload is the question id, `user_id` or 0, and the trimmed answer |
| `QuestionList.SentAnswerNotEmpty` | qa_dashboard/frontend/components/QuestionList.js:58 | an answer that passes the prompt check is non-empty once trimmed |
| `QuestionList.ListPanel.constructor` | qa_dashboard/frontend/components/QuestionList.js:54 | no panel is open |
| `QuestionList.ListPanel.ToggleAnswers` | qa_dashboard/frontend/components/QuestionList.js:128 | clicking the open question closes its panel; clicking any other question opens that one; at most one panel is open |
| `QuestionList.ListPanel.MarkAnswered` | qa_dashboard/frontend/components/QuestionList.js:10-19 | without a user only a warning, with no request and no `onAction`; with a user one request, then `onAction` on success or an error toast on failure |
| `QuestionList.ListPanel.Escalate` | qa_dashboard/frontend/components/QuestionList.js:21-30 | the same gate for escalation, with its own texts |
| `QuestionList.ListPanel.SubmitAnswer` | qa_dashboard/frontend/components/QuestionList.js:56-73 | a cancelled or blank prompt sends nothing; otherwise the payload is posted without any login check, and success opens that question's panel and calls `onAction` |
| `RegisterPage.ClientPasswordOk` | qa_dashboard/frontend/pages/register.js:20 | an accepted password contains no line feed or carriage return |
| `RegisterPage.AsciiPolicyAgreement` | qa_dashboard/frontend/pages/register.js:20 | for ASCII passwords without line feeds or carriage returns, the client's pattern and the server's accept the same set |
| `RegisterPage.ClientCheck` | qa_dashboard/frontend/pages/register.js:20-28 | the pattern is checked first and the confirmation second; the request goes ahead exactly when both pass |
| `RegisterPage.FailureText` | qa_dashboard/frontend/pages/register.js:37 | a truthy `err.response.data.detail` is shown as it is; otherwise "Registration failed." |
| `RegisterPage.ServerDetailShown` | qa_dashboard/frontend/pages/register.js:36-37 | a server error with a detail text shows that text |
| `RegisterPage.Page.constructor` | qa_dashboard/frontend/pages/register.js:14 | the page starts with no error and no request |
| `RegisterPage.Page.HandleSubmit` | qa_dashboard/frontend/pages/register.js:16-39 | the error is reset first; a failed check sets its error with no request; otherwise one request is made, a 200 stores the user and navigates home, and a failure shows the detail or the fallback |

## Left out

- Transport is not modelled: HTTP through axios and XMLHttpRequest, the WebSocket handshake and frames, uvicorn and CORS. Responses, send failures, socket states and close events are inputs.
- JSON encoding and decoding are not modelled. A parse result is an `Option`. `json.dumps(..., default=str)` is taken to deliver the same value it was given.
- Timestamps are integers. ISO 8601 text, `datetime.fromisoformat`, `utcnow`, dayjs formatting and the `str()` form of timestamps in `status` frames are not modelled.
- Timer durations (1500 ms reconnect, 3000 ms validation timeout) are not modelled. A timer is an event that fires or is cleared.
- SQLite plumbing is not modelled: connections, DDL and `init_db` on an existing file. The tables are in-memory sequences.
- The storage model assumes SQLite's AUTOINCREMENT issues ids above every id it has issued.
- Store.Database.AnswersFor: answers with equal timestamps keep table order. SQL leaves that order unspecified.
- Store.Database.AddUser: the duplicate-name failure is a `None` result. The source raises `IntegrityError`, which `register` never reaches because it checks the name first.
- bcrypt hashing and verification are not modelled, nor are `verify_user_credentials`, `login` and the admin password. A hash is an input string.
- `EmailStr` validation is not modelled. It is a boolean input of `Api.Register`.
- Api.ListQuestions: the second loop only converts timestamps to text, so the result is the filtered snapshot itself.
- Api.ListQuestions: a `from_ts` or `to_ts` with a UTC offset parses to an offset-aware time, while stored timestamps are naive, so the comparison raises `TypeError` and the request fails with a 500 once an item reaches the time test. Time arguments are modelled as plain instants, and the listing is returned instead (`Api.TimeWindowInclusive` likewise).
- Js.JsValue: JavaScript numbers are modelled as unbounded integers. Ids above 2^53 lose precision under `===`, and `String` renders 10^21 and above in exponent form, not as `DecimalString`.
- Store.Database.Snapshot: the SELECT in `get_questions` has no ORDER BY, so the order of questions with equal sort keys is up to SQLite; the model takes table order.
- Text.DecimalValue: the table is that of Unicode 15.0, as in Python 3.12; other Python versions ship slightly different tables.
- Whitespace is only partly modelled. Trimming removes the six ASCII whitespace characters; `str.strip()`, `int()` and `String.prototype.trim()` also remove further Unicode spaces, and their sets differ.
- QuestionForm.BlankAgreesWithServer: holds only for messages whose whitespace is among the six ASCII characters. Python's `strip()` also removes U+001C to U+001F and U+0085, which `trim()` keeps, so `"\x1c"` passes the client and gets the server's blank reason; `trim()` removes U+FEFF, which `strip()` keeps.
- Lower-casing is only partly modelled. It is ASCII-only, while Python's `str.lower()` also maps non-ASCII letters.
- The pydantic length limits are modelled as plain `|s|` bounds on code points, without the 422 body that FastAPI produces.
- The asyncio lock in main.py, concurrent sessions and React's batching of state updates are not modelled. Every handler runs to completion in turn.
- The `ws.close()` after a failed send in `broadcast` is not modelled.
- BroadcastHub.Hub.Accept: requires that the new socket is not already listed. A freshly accepted socket is a new object.
- websockets.py is not part of this model. It is a standalone relay that main.py never wires in.
- login.js, _app.js, utils/auth.js and the clipboard `copyText` are not part of this model.
- JSX rendering is not modelled. Toasts are kept only as level and text.
- The client password pattern counts UTF-16 code units while the server counts code points. They can disagree on passwords with characters outside the Basic Multilingual Plane; `RegisterPage.AsciiPolicyAgreement` covers only ASCII.
