# OpsMind phone-system backend and call pages: a Dafny model

This project models four parts of the OpsMind voice-agent system:

- **Agent provisioning and calls.** The FastAPI controller
  `app/api/phone_system_controller.py` covers several endpoints:
  - OCR extraction;
  - the knowledge-file upload;
  - the `create_agent` file loop and its ownership row;
  - the best-effort `get_agents`/`get_phones` loops;
  - `list_calls` validation;
  - `filter_messages`/`get_call`;
  - `delete_assistant` with its local delete.
- **The local store.** `app/database.py` holds the `users`, `user_agent` and `user_phone` tables and their unique columns.
- **Accounts.** `app/api/login_controller.py` implements `signup` and `login`.
- **The call pages.** Both `docs/js/agent_dashboard.js` and `docs/js/call_messages.js` use `escapeHtml`, `shortId`, `secondsToMmSs`, `formatDuration` and the boolean-ish formatters. Beyond those:
  - the dashboard has `calcDurationSec`, `pickCost` and the `buildDailySeries` day grouping;
  - the call page has the message-source, role-badge and link fallbacks.

Every outbound HTTP call is an oracle value (`Http.HttpReply`): either a transport error, or a status with the body text and, when the body parses, its JSON.
- **Loops over files.** An operation that loops over files takes one reply per position, as a function `nat -> HttpReply`.
- **Loops over stored ids.** These take one reply per id.
- **Requests.** The requests an operation sends are returned as a `seq<Outbound.Request>`, in order, so contracts can speak about what was and was not sent.
- **The store.** It is the class `Database.Db`, whose table fields the controller methods update in place.
- **Specification functions.** Each state-changing method is proved equal to a function of the old state (`CreateAgentSpec`, `DeleteAssistantSpec`, `SignupSpec`, `DailySeriesOf`). The lemmas state the promised properties of those functions.

The modules, in dependency order:

| module | file |
|---|---|
| `Common` | `common.dfy` |
| `Text` | `text.dfy` |
| `Json` | `json.dfy` |
| `Http` | `http.dfy` |
| `Outbound` | `outbound.dfy` |
| `Database` | `database.dfy` |
| `PhoneAdapters` | `phone_adapters.dfy` |
| `PhoneSystem` | `phone_system.dfy` |
| `CallHistory` | `call_history.dfy` |
| `LoginController` | `login.dfy` |
| `DisplayFormat` | `display_format.dfy` |
| `AgentDashboard` | `agent_dashboard.dfy` |
| `CallMessages` | `call_messages.dfy` |

`docs/js/call_messages.js:195-243` repeats `formatDuration`, `secondsToMmSs`, `shortId` and `escapeHtml` exactly as `docs/js/agent_dashboard.js:150-198` defines them. `DisplayFormat` models them once.

Behaviour of the code a reader may not expect:

- **`delete_assistant` returns nothing (JSON `null`) after a successful delete**, not the deleted-row count. Its local variable holding the count is never returned.
- **`create_agent` has no separate "orphaned remote agent" error.**
  - A failed store write after a successful assistant POST is swallowed, and the POST's body is returned.
  - A transport error on that POST leaves `response` unbound, so the final `response.json()` raises, which gives a 500.
- **Non-JSON bodies.** With `requests` 2.27 or later, `json()` on a non-JSON body raises a `RequestException`. So in `run_ocr` and `upload_text_to_vapi`, a non-JSON body takes the first `except` ("... failed: ...", 502), not the "not valid JSON" branch.
- **`signup` fails on a taken telephone.** The `telephone` column is declared unique (`app/database.py:14`), so a second signup with a taken telephone fails its INSERT and answers 500.
- **A repeated test phone id also fails.** With `TEL_TEST_ID` set, every signup after the first inserts the same unique `phone_id` (`app/database.py:26`), so it fails with 500 and writes nothing (`LoginController.SecondSignupSameTestPhone`).

## Model

| member | source | states |
|---|---|---|
| PhoneAdapters.ExtractTextFromAsprise | app/api/phone_system_controller.py:35-52 | "" unless the response is a dict whose `success` is exactly true; otherwise the first receipt's first usable text field, else the JSON dump of the whole response |
| PhoneAdapters.FirstReceipt | app/api/phone_system_controller.py:43-45 | a receipt is consulted exactly when `receipts` is a non-empty list; only element 0 is ever read (`{}` when it is not a dict) |
| PhoneAdapters.FirstText | app/api/phone_system_controller.py:46-49 | the result is the stripped non-blank text of some key, and every key before it has none; None exactly when no key has one |
| PhoneAdapters.ExtractTextBlankIff | app/api/phone_system_controller.py:35-52 | the extracted text is blank exactly when the response is not a successful dict (the dump of a dict is never blank) |
| PhoneAdapters.OcrRequest | app/api/phone_system_controller.py:57-68 | the OCR request carries the file name, and an empty content type is sent as `application/octet-stream` |
| PhoneAdapters.RunOcr | app/api/phone_system_controller.py:55-82 | success only for a JSON reply without error status, and then the text is the extraction of its body and is not blank |
| PhoneAdapters.RunOcrClassification | app/api/phone_system_controller.py:69-81 | 502 exactly when the call yields no JSON (transport error, error status, bad body); 422 exactly for JSON that is not a successful dict; success otherwise |
| PhoneAdapters.TxtName | app/api/phone_system_controller.py:86 | always ends in ".txt"; "kb.txt" for an empty name; the name plus ".txt" without a dot; the part before the last dot plus ".txt" otherwise |
| PhoneAdapters.TxtNameKeepsInnerDots | app/api/phone_system_controller.py:86 | "a.b.pdf" becomes "a.b.txt" |
| PhoneAdapters.TxtNameHiddenFile | app/api/phone_system_controller.py:86 | ".x" becomes ".txt" |
| PhoneAdapters.TxtNameExamples | app/api/phone_system_controller.py:86 | "noext" becomes "noext.txt" and "" becomes "kb.txt" |
| PhoneAdapters.TxtNameDefaultUpload | app/api/phone_system_controller.py:139-143 | a file without a name is uploaded as "upload.txt" |
| PhoneAdapters.TxtNameIdempotent | app/api/phone_system_controller.py:86 | deriving the name twice is deriving it once |
| PhoneAdapters.UploadRequest | app/api/phone_system_controller.py:86-89 | the upload carries the extracted text under the derived `.txt` name |
| PhoneAdapters.UploadTextToVapi | app/api/phone_system_controller.py:90-97 | the id is returned exactly for a JSON dict reply with an `id`; 502 exactly for a failed call or a dict without `id`; a JSON body that is not a dict is an uncaught 500 |
| PhoneSystem.ProcessFile | app/api/phone_system_controller.py:131-145 | one file: first an OCR request (name defaulting to "upload", type to "application/pdf"); if OCR fails, its error and no further request; otherwise exactly one upload of the text under the `.txt` name of the file name (defaulting to "upload.pdf"), whose outcome is the file's |
| PhoneSystem.Steps | app/api/phone_system_controller.py:129-145 | one step per file, by position, each with the request pattern of one file |
| PhoneSystem.CollectStaysFailed | app/api/phone_system_controller.py:129-145 | after the first failing file nothing more is collected or sent |
| PhoneSystem.CollectAllSucceed | app/api/phone_system_controller.py:127-145 | when every file succeeds: one id per file in input order, one OCR and one upload per file, no assistant post |
| PhoneSystem.CollectFirstFailure | app/api/phone_system_controller.py:129-145 | when file k is the first to fail: its error ends the loop after k+1 OCR requests and the k earlier uploads |
| PhoneSystem.CollectNoFailure | app/api/phone_system_controller.py:129-147 | a loop that ends without failure had every file succeed |
| PhoneSystem.CollectFileIds | app/api/phone_system_controller.py:127-145 | the loop method computes exactly the batch the specification gives |
| PhoneSystem.BuildPayload | app/api/phone_system_controller.py:150-174 | the payload carries the name, the first message, the collected ids as `knowledgeBase.fileIds` and exactly one message, the system prompt with role "system" |
| PhoneSystem.CreatedAgentId | app/api/phone_system_controller.py:176-188 | an id is stored only from a JSON reply without error status whose `id` is a string |
| PhoneSystem.AfterAgentInsert | app/api/phone_system_controller.py:185-191 | the ownership insert never changes the users or phones tables |
| PhoneSystem.ReturnedBody | app/api/phone_system_controller.py:195 | the answer is the post's body exactly when the post got a reply that parses |
| PhoneSystem.AfterAgentInsertWellFormed | app/api/phone_system_controller.py:185-191 | the ownership insert keeps `agent_id` unique |
| PhoneSystem.CreateAgentNoFiles | app/api/phone_system_controller.py:124-125 | an empty file list is a 400 before any request, with the store unchanged |
| PhoneSystem.CreateAgentFileFailure | app/api/phone_system_controller.py:129-145 | if file k fails first: its error, k+1 OCR requests, the k earlier uploads (plus file k's own if its OCR passed), no assistant post, store unchanged |
| PhoneSystem.CreateAgentPayload | app/api/phone_system_controller.py:150-183 | when all files succeed: one upload per file, then exactly one assistant post whose file ids are the upload ids in input order and whose only message is the system prompt |
| PhoneSystem.PostAfterBatch | app/api/phone_system_controller.py:150-183 | appending the assistant post adds one assistant creation and no upload, and the post lists the batch's ids |
| PhoneSystem.CreateAgentStoreWrite | app/api/phone_system_controller.py:176-192 | at most one ownership row is added, for the id of a successful post, only after one assistant post and without a database fault; other tables unchanged; uniqueness kept |
| PhoneSystem.CreateAgentStoresRow | app/api/phone_system_controller.py:176-192 | when every file succeeds, the post returns a string id not yet stored and the commit works: exactly one `user_agent` row is added, for that id and the caller's user, under a fresh row id; nothing else changes |
| PhoneSystem.CreateAgentThenListed | app/api/phone_system_controller.py:176-192 | after such a creation, the caller's `get_agents` looks the new assistant up last, after the ones it already listed |
| PhoneSystem.CreateAgentSwallowsStoreErrors | app/api/phone_system_controller.py:176-195 | once the files are through, the answer is the post's body whatever happened to the store write, and a 500 only without a parsed reply |
| PhoneSystem.CreateAgent | app/api/phone_system_controller.py:114-195 | the endpoint over the session store yields exactly the specification's tables, answer and requests, and keeps the store valid |
| PhoneSystem.OwnedIds | app/api/phone_system_controller.py:202 | the owned-row selection of `get_agents` (and, with the phone columns, `get_phones`) never yields more ids than the table has rows |
| PhoneSystem.OwnedIdsMembers | app/api/phone_system_controller.py:202 | an id is looked up exactly when some row of the table has `user_id` equal to the caller's and carries that id; the same lemma over the phone columns covers `get_phones` |
| PhoneSystem.OwnedIdsAppend | app/api/phone_system_controller.py:202-206 | the ids come in table order: selecting from two blocks of rows concatenates the two selections |
| PhoneSystem.OwnedAgentIdsAfterAdd | app/api/phone_system_controller.py:202 | a newly appended agent row is listed last for its owner and changes no other user's list |
| PhoneSystem.Appended | app/api/phone_system_controller.py:207-216 | each lookup contributes at most one item |
| PhoneSystem.FanOut | app/api/phone_system_controller.py:204-218 | never more items than ids |
| PhoneSystem.FanOutLength | app/api/phone_system_controller.py:204-218 | every lookup is either returned or skipped: items plus skipped equals ids |
| PhoneSystem.FanOutAllParsed | app/api/phone_system_controller.py:206-213 | when every body parses (error statuses included), item i is the body of the lookup of id i |
| PhoneSystem.FanOutFromReplies | app/api/phone_system_controller.py:206-213 | every item returned is the parsed body of the lookup of one of the ids |
| PhoneSystem.FetchEach | app/api/phone_system_controller.py:204-218 | one GET per id in order, and the results are the fan-out of the replies |
| PhoneSystem.GetAgents | app/api/phone_system_controller.py:197-218 | one assistant GET per owned row in table order; the results are the parsed bodies |
| PhoneSystem.GetPhones | app/api/phone_system_controller.py:220-241 | one phone-number GET per owned row in table order; the results are the parsed bodies |
| PhoneSystem.DeleteAssistantStore | app/api/phone_system_controller.py:360-379 | one remote DELETE; the remote failure is reported exactly for a transport error or error status; the store changes only on success, and then loses exactly the rows with that agent id (at most one); uniqueness kept |
| PhoneSystem.DeleteAssistant | app/api/phone_system_controller.py:350-379 | the endpoint over the session store yields exactly the specification's tables, answer and requests |
| Database.NextId | app/database.py:12 | a new row id is positive and larger than every id in use |
| Database.WithoutAgent | app/database.py:17-21 | the delete keeps no row with the deleted agent id |
| Database.WithoutAgentExact | app/database.py:17-21 | the delete keeps exactly the other rows; with unique agent ids it removes at most one; an absent id changes nothing |
| Database.WithoutAgentUnique | app/database.py:20 | the delete keeps `agent_id` unique |
| Database.Db.constructor | app/database.py:10-29 | a fresh store has three empty tables |
| Database.Db.AddAgent | app/database.py:17-21 | appends one `user_agent` row with a fresh id, other tables unchanged |
| Database.Db.DeleteAgents | app/database.py:17-21 | removes the rows with the agent id, returning a count of at most one, other tables unchanged |
| Database.Db.InsertUser | app/database.py:10-15 | appends one user row with a fresh id, other tables unchanged; email and telephone stay unique |
| Database.Db.InsertUserPhone | app/database.py:23-27 | appends one `user_phone` row with a fresh id, other tables unchanged; `phone_id` stays unique |
| CallHistory.CallsParamsExact | app/api/phone_system_controller.py:255-259 | `assistantId` is sent iff an assistant id is given, with its value; `phoneNumberId` iff a phone id is given; nothing else |
| CallHistory.ListCallsValidation | app/api/phone_system_controller.py:249-272 | 400 exactly when both filters are missing or empty, and then no request; otherwise one GET with non-empty params, answered with its body exactly when it succeeded with JSON |
| CallHistory.KeepUnblocked | app/api/phone_system_controller.py:281-282 | the comprehension keeps no tool message and never grows the list |
| CallHistory.KeepUnblockedMembers | app/api/phone_system_controller.py:281-282 | an entry is kept exactly when it is in the input and not a tool message |
| CallHistory.KeepUnblockedAppend | app/api/phone_system_controller.py:282 | the comprehension works entry by entry, so the input order is kept |
| CallHistory.FilterMessages | app/api/phone_system_controller.py:274-284 | when it does not raise, the result is no longer than the input and contains no tool message |
| CallHistory.FilterMessagesCharacterised | app/api/phone_system_controller.py:274-284 | with dict entries and hashable roles it never raises, and it is the unblocked entries minus a leading system message; only position 0 is ever dropped as system |
| CallHistory.FilterMessagesRaises | app/api/phone_system_controller.py:278-282 | it raises only on an entry that is not a dict or whose role is unhashable |
| CallHistory.FilterMessagesEmpty | app/api/phone_system_controller.py:275-276 | an empty transcript is returned as is |
| CallHistory.Entry | app/api/phone_system_controller.py:278 | a message with just a role is a dict with that role |
| CallHistory.FilterMessagesExample | app/api/phone_system_controller.py:274-284 | [system, user, tool_calls, assistant] becomes [user, assistant] |
| CallHistory.FilterMessagesKeepsLaterSystem | app/api/phone_system_controller.py:278-279 | a system message after position 0 stays |
| CallHistory.FilterMessagesNotIdempotent | app/api/phone_system_controller.py:278-279 | a second pass drops a second leading system message |
| CallHistory.FilterMessagesFieldEffect | app/api/phone_system_controller.py:294-295 | a list under `messages` is replaced by its filtered copy, any other value is left alone, no other key changes; None exactly when the filter raises |
| CallHistory.GetCallEffect | app/api/phone_system_controller.py:287-301 | an error status passes through with its text; the call succeeds exactly for a JSON dict whose message filters do not raise and whose `artifact`, if present, is a dict whose filter does not raise; a success is the same dict with its own and its artifact's `messages` lists filtered, every other key unchanged |
| CallHistory.GetCallArtifactNotDict | app/api/phone_system_controller.py:297 | an `artifact` that is present but not a dict makes `get_call` a 500 |
| LoginController.SignupFailureWritesNothing | app/api/login_controller.py:31-73 | a failed signup writes nothing; 400 exactly for a known email; 500 exactly for a database fault, a taken telephone or a taken test phone id; success exactly when none of these holds |
| LoginController.SignupSuccess | app/api/login_controller.py:39-69 | a successful signup adds exactly one user with the email, the telephone and the hash of the password under a fresh id; one `user_phone` row for that id exactly when a test phone id is set; uniqueness kept |
| LoginController.SignupOn | app/api/login_controller.py:23-73 | the endpoint over the session store yields exactly the specification's tables and answer |
| LoginController.FindByEmail | app/api/login_controller.py:81-89 | finds a row with the email exactly when one exists |
| LoginController.LoginOutcome | app/api/login_controller.py:91-103 | 401 "User not found" exactly for an unknown email; success exactly when the email's row holds the password's hash, returning that row's id, email and telephone, otherwise 401 "Invalid password" |
| LoginController.SignupThenLogin | app/api/login_controller.py:23-103 | after a successful signup, logging in with the same email and password returns the new user's id, email and telephone |
| LoginController.SignupThenWrongPassword | app/api/login_controller.py:91-95 | after a successful signup, a password with a different hash is refused |
| LoginController.SecondSignupSameTestPhone | app/api/login_controller.py:57-73 | once the test phone id is linked, every later signup fails (500 unless the email is known) and writes nothing |
| DisplayFormat.EscapeHtmlSafe | docs/js/agent_dashboard.js:191-198 | the escaped text contains none of `<`, `>`, `"`, `'` |
| DisplayFormat.EscapeHtmlRoundTrip | docs/js/agent_dashboard.js:191-198 | unescaping the escaped text gives back the original |
| DisplayFormat.EscapeHtmlPlain | docs/js/agent_dashboard.js:191-198 | text without the five special characters is left unchanged |
| DisplayFormat.EscapeHtmlDoubleEscapes | docs/js/agent_dashboard.js:193 | `&` is replaced first, so an existing entity is escaped again |
| DisplayFormat.EscapeHtmlDoubleEscapesLt | docs/js/agent_dashboard.js:193-194 | "&lt;" becomes "&amp;lt;" |
| DisplayFormat.ShortId | docs/js/agent_dashboard.js:186-189 | an id under 12 characters (empty included) is unchanged; a longer one is 13 characters: its first 8, "…", its last 4 |
| DisplayFormat.ShortIdIdempotent | docs/js/agent_dashboard.js:186-189 | shortening twice is shortening once |
| DisplayFormat.ShortIdUnchangedIff | docs/js/agent_dashboard.js:186-189 | an id is shown unchanged exactly when it is short, or 13 characters with "…" at position 8 |
| DisplayFormat.JsRem60 | docs/js/agent_dashboard.js:168 | the remainder has the dividend's sign, is below 60 in magnitude and differs from it by a multiple of 60 |
| DisplayFormat.PadStart2 | docs/js/agent_dashboard.js:169 | at least two characters; a text of two or more is unchanged |
| DisplayFormat.SecondsToMmSsRoundTrip | docs/js/agent_dashboard.js:166-170 | for sec >= 0 the text is minutes, a colon and exactly two digits below 60, with minutes * 60 + seconds = sec |
| DisplayFormat.SecondsToMmSsNegative | docs/js/agent_dashboard.js:166-170 | -5 seconds shows as "-1:-5" |
| DisplayFormat.SecondsToMmSsNotDash | docs/js/agent_dashboard.js:166-170 | the text is never the placeholder "-" |
| DisplayFormat.RoundDiv1000 | docs/js/agent_dashboard.js:152 | `Math.round(n / 1000)` is the nearest integer, a half rounding up |
| DisplayFormat.FormatDurationPriority | docs/js/agent_dashboard.js:150-164 | a numeric duration decides alone; "-" exactly when there is no duration and no ordered pair of valid timestamps |
| DisplayFormat.FormatDurationThreshold | docs/js/agent_dashboard.js:151-153 | 10000 is read as seconds and 10001 as milliseconds |
| DisplayFormat.BoolishUpperCase | docs/js/agent_dashboard.js:180-181 | "YES" is recognised as true |
| DisplayFormat.BoolishMixedCase | docs/js/agent_dashboard.js:180-182 | "No" is recognised as false |
| DisplayFormat.BoolishNonStrings | docs/js/agent_dashboard.js:180-182 | the booleans and the numbers 1 and 0 are recognised through `String(v)` |
| DisplayFormat.BoolishNoTrim | docs/js/agent_dashboard.js:180-183 | a padded word is not recognised |
| AgentDashboard.CalcDurationPriority | docs/js/agent_dashboard.js:266-279 | ordered valid timestamps decide alone; with neither them nor a duration the result is 0 |
| AgentDashboard.FormatAgreesWithCalc | docs/js/agent_dashboard.js:266-279 | without a duration, or without ordered timestamps, the table's text is the chart's duration rounded to seconds ("-" when neither) |
| AgentDashboard.FormatAndCalcDisagree | docs/js/agent_dashboard.js:266-279 | with both, the table uses the duration and the chart the timestamps |
| AgentDashboard.FormatBoolishSafe | docs/js/agent_dashboard.js:179-184 | the cell is always safe HTML, and an unrecognised value decodes back to `String(v)` |
| AgentDashboard.FormatBoolishPlain | docs/js/agent_dashboard.js:179-184 | a longer text without special characters is not recognised and is shown unchanged |
| AgentDashboard.FormatBoolishAmbiguous | docs/js/agent_dashboard.js:179-184 | the text "✅ true" is not recognised yet shows as the same badge as `true` |
| AgentDashboard.SumItemCostsDefined | docs/js/agent_dashboard.js:288-290 | the sum over `costs` throws exactly on a null item; a list of non-null items none of which has a numeric `cost` sums to 0 |
| AgentDashboard.SumItemCostsSkipsUnpriced | docs/js/agent_dashboard.js:289 | an item that is not null and has no numeric `cost` (missing, null, a string) adds nothing, wherever it stands in the list |
| AgentDashboard.PickCostFails | docs/js/agent_dashboard.js:281-293 | a numeric `cost` wins; `pickCost` throws only when it falls through to an array `costs` holding a null |
| AgentDashboard.AddCall | docs/js/agent_dashboard.js:227-239 | one pass of the loop body keeps the map's keys exactly its distinct insertion order |
| AgentDashboard.Accumulate | docs/js/agent_dashboard.js:224-240 | the map's keys are exactly its distinct insertion order |
| AgentDashboard.AccumulateCorrect | docs/js/agent_dashboard.js:226-240 | the loop throws exactly when a dated call's cost does; otherwise its keys are the days of the dated calls, and each day holds its own call count, total duration and total cost |
| AgentDashboard.AccumulateStaysNone | docs/js/agent_dashboard.js:226-240 | once the loop has thrown, later calls do not matter |
| AgentDashboard.InsertSorted | docs/js/agent_dashboard.js:242 | inserting a new label into strictly sorted labels keeps them strictly sorted and adds just that label |
| AgentDashboard.SortStrings | docs/js/agent_dashboard.js:242 | sorting distinct keys gives the same labels, strictly ascending |
| AgentDashboard.SeriesFrom | docs/js/agent_dashboard.js:242-252 | the labels are the map's keys in ascending order and every series has one entry per label |
| AgentDashboard.BuildDailySeries | docs/js/agent_dashboard.js:223-253 | the loop method with its map computes exactly the specification's series |
| AgentDashboard.DailySeriesCorrect | docs/js/agent_dashboard.js:223-253 | the labels are the distinct days of the dated calls, ascending, once each; all series have their length; each entry counts, sums and averages exactly that day's calls; the zero-average branch never fires; failure exactly when a dated call's cost throws |
| AgentDashboard.DayCountPositive | docs/js/agent_dashboard.js:230-232 | every day that occurs has at least one call |
| AgentDashboard.DailySeriesCountsSum | docs/js/agent_dashboard.js:226-246 | the per-day counts sum to the number of dated calls; undated calls are skipped |
| CallMessages.FormatBoolishTextIdempotent | docs/js/call_messages.js:224-229 | formatting its own output again changes nothing |
| CallMessages.FormatBoolishTextMatchesDashboard | docs/js/call_messages.js:224-229 | the same six words are recognised as in the dashboard; the text is the dashboard's cell without badge and without escaping |
| CallMessages.MessagesOf | docs/js/call_messages.js:135-136 | a top-level `messages` array is the one walked; otherwise `artifact.messages` when that is an array; otherwise no messages; the page fails only for a null call |
| CallMessages.Hint | docs/js/call_messages.js:162 | the hint is the count in decimal followed by " messages", and the count reads back from it |
| CallMessages.RoleOf | docs/js/call_messages.js:166 | the role throws exactly for a null message or a truthy role that is not a string |
| CallMessages.BadgeClass | docs/js/call_messages.js:167-170 | one of system/bot/user; system exactly when the role contains "system"; user exactly when it contains none of "system", "bot", "assistant" |
| CallMessages.RenderItemSafe | docs/js/call_messages.js:176-184 | the escaped role, seconds and text are safe HTML and decode back; the badge is one of the three classes |
| CallMessages.MissingRoleIsSystem | docs/js/call_messages.js:166-170 | a message without a truthy role is shown with the system badge |
| CallMessages.SystemAnywhereInRole | docs/js/call_messages.js:166-168 | "SYSTEM" in any case and anywhere in the role gives the system badge |
| CallMessages.AssistantRoleIsBot | docs/js/call_messages.js:167-170 | a role containing "assistant" and no letter y (so no "system") gets the bot badge |
| CallMessages.RenderEach | docs/js/call_messages.js:165-186 | one entry per message in order, or a throw exactly when some message's role throws |
| CallMessages.RenderMessages | docs/js/call_messages.js:131-187 | a null call or a throwing role gives the error view; no messages gives the transcript/summary fallback; otherwise the count hint and one entry per message |
| CallMessages.FallbackShowsTranscript | docs/js/call_messages.js:138-158 | the top-level transcript, else the artifact's, else the placeholder; the summary entry appears exactly when a summary is there |
| CallMessages.ShownMessagesUnblocked | docs/js/call_messages.js:135-136 | for a call as `get_call` returns it, every message the page walks is a dict and no tool message, whichever array it came from |
| CallMessages.FirstTruthy | docs/js/call_messages.js:100-107 | the first truthy candidate of an `||` chain, every earlier one falsy; none exactly when all are falsy |
| CallMessages.RenderLinksEffect | docs/js/call_messages.js:100-128 | the row is hidden exactly when all six URL candidates are falsy; a top-level `recordingUrl` always wins; a shown recording link is the first truthy of its four candidates in priority order |

## Left out

- **I/O.** All network I/O (`requests`, `fetch`) is replaced by oracle replies. That includes the request headers, the bearer token, time-outs, `raise_for_status` and JSON decoding. Exception messages (`str(e)`) are reduced to their fixed prefix.
- **The OCR form.** The `ref_no` timestamp, the `api_key`/`recognizer` fields and the file bytes are not modelled. The `f.read()` of each upload is not modelled either.
- **Configuration.** `os.makedirs`, `load_dotenv` and environment reads are left out. `TEL_TEST_ID` is a parameter.
- **Unmodelled operations.**
  - `upload_bytes_to_vapi` is not modelled because nothing calls it.
  - `test_call` is not modelled; it only builds a payload and makes a network call.
  - The `/system_prompt` and `/first_message` handlers are not modelled; they format constant prompt text with LangChain.
- **Password hashing.** `hash` is an opaque parameter, and checking a password is `hash(password) == stored`. The salt of argon2 hashes is not modelled.
- **The store.**
  - SQL text, the SQLAlchemy engine and session, and `db.refresh` are left out.
  - `login_controller.py` queries a table named `users` while `app/database.py:11` declares `user`. The model has one abstract users table.
  - Foreign keys are not checked.
  - A rollback is modelled by never issuing the failing statement. A statement the database would refuse for another reason is the parameter `dbFails`.
  - Python's `print` of swallowed exceptions is left out.
- **Ids.** `user_id` is a form string in `create_agent`/`get_agents`/`get_phones`; the model takes it as a `nat`. An agent `id` that is not a string is treated as a failed insert, which is then swallowed.
- **`get_call`'s in-place update.** Writing `data["messages"] = ...` is modelled as a new value (`Json.Put`). Nothing else holds a reference to `data`.
- **Floating point.**
  - `formatCost`/`formatCostText` (`toFixed`) and `round2`/`round4` are left out.
  - The minutes, spend and average sums of `buildDailySeries` are exact integers: durations are milliseconds and the average is a ratio pair.
  - `Math.round` is modelled only for the integer arguments the model has.
  - NaN durations and non-integer costs are not modelled.
- **Dates.** Date parsing and locale formatting (`new Date`, `isoDay`, `formatDateTime`) are abstracted. A timestamp is an optional millisecond value, and a day key is an optional label.
- **The DOM and other page code.**
  - DOM writes, `localStorage`, Chart.js, `renderSummary`, `loadCalls`, `loadCharts` and `refreshCall` are left out. Of `refreshCall` the model keeps only the outcome of a throw: the error view.
  - A null entry in the dashboard's call list (it would throw on `c.startedAt`) is not modelled.
  - Sorting compares characters, which agrees with JavaScript's UTF-16 code-unit order for the ASCII day labels.
- **Lower-casing.** `toLowerCase` is modelled for ASCII letters only. That is exact for the six recognised words and for the badge tests.
- **Numbers.** JSON numbers are integers throughout (`JNum(int)`). A fractional `secondsFromStart` on the call page, or a fractional field in the OCR dump, would print differently from the model.
- DisplayFormat.ShortId: takes only strings and counts code points. JavaScript's `!id`, `length` and `slice` also accept falsy non-strings, and they count UTF-16 units.
- CallMessages.RoleOf: the shown role text keeps non-ASCII capitals that `toLowerCase` would lower. The six boolean words and the three badge tests are unaffected.
- **JSON objects.** An object is a list of key/value pairs, and `Json.Get` returns the first value for a key. Python's `json` and JavaScript's `JSON.parse` keep the last one. The model takes every reply body to have distinct keys, as a parsed dict has, so the two readings agree.
- **Not modelled at all.** `docs/js/home.js`, `docs/js/login.js`, `docs/js/agent_prompts.js`, `app/main.py`, `app/schemas/ticket_request.py` and `app/prompts/property_manager_prompt.py` are not part of this model.
