# Career Pathway dashboards: the local messaging store, in Dafny

This project models the browser-side messaging demo of the Career Pathway employer
dashboard (`js/employer-dashboard.js`) and the helpers it shares with the other
dashboards (`js/dashboard-common.js`), and proves properties of that model.

Browser storage is a map from string keys to stored values. A value is either a
message thread or any other text. A thread is the JSON text of an array of
`{from, text, at}` messages, held under `demoMessages_<student email>`. The
per-(conversation, viewer) read watermark is held under
`demoLastRead_<conversation>|<viewer>`. The store is the class `LocalStore.Store`.
Its `SetItem` and `RemoveItem` change its map in place. Every handler that reads
the clock receives a parameter `now`, and its several readings are all taken to be
that one instant.

The model has these modules:

- `Options` holds the option type.
- `JsText` models the JavaScript text primitives the core relies on. These are
  `parseInt(s, 10)`, `String(n)` for integers, `trim()` with the exact ECMAScript
  white-space set, and `split(' ')[0]`.
- `LocalStore` models storage and the `JSON.parse(v || '[]')` reading of a thread.
- `EmployerUnread` covers the key schema, the watermark, the unread count and the
  sidebar and per-student badges. It also covers what "Clear demo" does to them.
- `EmployerSeed` holds the two seed generators and their store transitions.
- `EmployerConversation` covers `loadConv` (seed, render with Seen/Delivered
  receipts, mark read) and the send, simulate and populate handlers.
- `EmployerSync` holds the decision the `storage` listener takes on a changed key.
- `EmployerApplications` covers grouping applications by candidate, padding a short
  list, and chart-label truncation.
- `DashboardCommon` covers `timeAgo`, the "Clear demo" key filter, compact-mode
  persistence, `showSection`, the auto-shown tour and the tour stepper.

The comment above `updateEmployerBadge` (js/employer-dashboard.js:499) promises a
sidebar badge with the unread counts across students. The code as written never adds
anything, because of an unresolved name (see Findings).
`EmployerUnread.UpdateEmployerBadgeAsWritten` models the code as written.
`EmployerUnread.UpdateEmployerBadge` models the evident intent, and the handlers use it.
Likewise the message form's submit handler names its sender with `common`, which is
not in scope there, so as written it never sends (see Findings).
`EmployerConversation.SendMessageAsWritten` models the code as written and
`EmployerConversation.SendMessage` the evident intent.

## Model

| member | source | states |
|---|---|---|
| LocalStore.ParseThread | js/employer-dashboard.js:344 | A stored thread reads as its messages, and a missing key or empty text reads as the empty thread through the `'[]'` default. It fails, as `JSON.parse` throws, exactly on other text. |
| JsText.IntToString | js/employer-dashboard.js:469 | `String(n)` is never empty and starts with a minus sign exactly when `n` is negative. `ParseIntRoundTrip` shows that it reads back as `n`. |
| JsText.ParseInt | js/employer-dashboard.js:346 | `parseInt` yields NaN exactly when no digit follows the leading white space and optional sign. |
| JsText.ParseIntRoundTrip | js/employer-dashboard.js:468-469 | A number written with `String` reads back as the same number under `parseInt`. |
| JsText.ParseIntLeading | js/dashboard-common.js:309-314 | `parseInt` stops at the first non-digit: a number followed by a unit letter reads back as the number. |
| JsText.Trim | js/employer-dashboard.js:558 | The trimmed text is a slice of the input, with only white space removed on either side and none left at either end. |
| JsText.TrimIdempotent | js/employer-dashboard.js:558 | Trimming an already trimmed text changes nothing. |
| JsText.FirstWord | js/employer-dashboard.js:410 | The first word is a prefix of the text without a space, and a space follows it unless it is the whole text. |
| LocalStore.Lookup | js/employer-dashboard.js:344 | `getItem` finds a value exactly when the key is stored, and the value it finds is the stored one. |
| LocalStore.Store.SetItem | js/employer-dashboard.js:413 | `setItem` replaces one key's value and leaves every other key alone. |
| LocalStore.Store.RemoveItem | js/dashboard-common.js:161 | `removeItem` drops one key and leaves every other key alone. |
| LocalStore.ThreadRoundTrip | js/employer-dashboard.js:532 | A thread that is written reads back unchanged. |
| EmployerUnread.KeysDisjoint | js/employer-dashboard.js:344-345 | A thread key never equals a watermark key, so writing one never disturbs the other. |
| EmployerUnread.RawWatermark | js/employer-dashboard.js:468 | A missing or empty watermark reads through the `'0'` default as 0. Any other stored text reads as `parseInt` of that text, which is NaN exactly when it has no leading digits. A stored thread, whose text starts with `[`, reads as NaN. |
| EmployerUnread.NonNumericWatermarkIsZero | js/employer-dashboard.js:346 | A stored watermark text with no leading digits counts as 0, because NaN falls back to 0; one that `parseInt` reads counts as that value. |
| EmployerUnread.MalformedWatermarkExamples | js/employer-dashboard.js:346 | The watermark `abc` counts as 0 and `12x` as 12. |
| EmployerUnread.Watermark | js/employer-dashboard.js:346 | The default to 0 after `parseInt`: NaN reads as 0, a number as itself, and a missing key as 0. |
| EmployerUnread.MarkReadRoundTrip | js/employer-dashboard.js:467-469 | The watermark written with `String(ts)` reads back as `ts`, both raw and after the default of 0. |
| EmployerUnread.MarkReadRegresses | js/employer-dashboard.js:497 | There is no monotonic clamp: marking read at an earlier time moves the watermark back. |
| EmployerUnread.UnreadOf | js/employer-dashboard.js:347 | The filtered list is no longer than the thread, and every message in it is from someone else and newer than the watermark. |
| EmployerUnread.UnreadCountIsPositions | js/employer-dashboard.js:347 | The filtered count equals the number of positions whose message is from someone else and newer than the watermark. |
| EmployerUnread.UnreadAfterAppend | js/employer-dashboard.js:347 | Appending a message raises the count by one exactly when that message is unread. |
| EmployerUnread.CaughtUpMeansNoUnread | js/employer-dashboard.js:347 | With every message at or before the watermark, nothing is unread. |
| EmployerUnread.UnreadAntitone | js/employer-dashboard.js:347 | A later watermark never increases the unread count. |
| EmployerUnread.ComputeUnreadForStudent | js/employer-dashboard.js:340-349 | A thread that does not parse counts 0. Otherwise the count is the number of unread positions under the viewer's watermark, which is 0 when the watermark is missing or non-numeric. |
| EmployerUnread.UnreadExample | js/employer-dashboard.js:347 | Take Alice, Bob, Alice at 100, 200 and 300. Bob at watermark 150 has one unread message, and none at 300. |
| EmployerUnread.TotalZeroIff | js/employer-dashboard.js:500-516 | The summed total is 0 exactly when every student's count is 0. |
| EmployerUnread.BadgeFor | js/employer-dashboard.js:514-515 | Hidden exactly at 0. Above 99 it shows `99+`. In between it shows one or two characters that `parseInt` reads back as the count. |
| EmployerUnread.UpdateEmployerBadge | js/employer-dashboard.js:500-518 | The loop's badge is the badge of the sum of every student's unread count. This is the corrected version; see Findings. |
| EmployerUnread.UpdateEmployerBadgeAsWritten | js/employer-dashboard.js:500-518 | As written, every per-student step throws and is swallowed, so the badge is always hidden. |
| EmployerUnread.BadgeAsWrittenMissesUnread | js/employer-dashboard.js:510 | In a store with one unread message, the intended badge shows `1`. `UpdateEmployerBadgeAsWritten` promises `Hidden` for every store, this one included. |
| EmployerUnread.OneUnread | js/employer-dashboard.js:340-349 | A lone message from someone else, with no watermark stored, counts as one unread message. |
| EmployerUnread.FindStudent | js/employer-dashboard.js:380 | `find` returns the first student with the email, and nothing when no student has it. |
| EmployerUnread.SelectedStudentBadge | js/employer-dashboard.js:377-386 | Hidden with no selection or an unknown student. Otherwise it is the badge of the selected student's unread count, shown only when that count is positive. |
| EmployerUnread.ConversationKeysAreDemo | js/dashboard-common.js:160 | Every thread key and every watermark key is one that "Clear demo" removes. |
| EmployerUnread.ClearDemoHidesBadge | js/dashboard-common.js:157-163 | After "Clear demo" no conversation has anything unread, so the sidebar badge is hidden. |
| EmployerSeed.StudentNameFor | js/employer-dashboard.js:405 | The name of the first student with the email, or `Student` when no student has it. The same lookup names the sender of a simulated message. |
| EmployerSeed.EmployerOutreach | js/employer-dashboard.js:404-412 | The seeded thread holds `min(3, employers) + 1` messages. Employer `i` sends at `now - (i+1)` days, strictly decreasing. The student's reply, an hour before `now`, comes last and is the newest. |
| EmployerSeed.BuildEmployerOutreach | js/employer-dashboard.js:406-412 | The push loop builds exactly that thread. |
| EmployerSeed.SeededDemo | js/employer-dashboard.js:397-415 | Only the student's thread key can change. Nothing changes for an empty email, a non-empty or unparsable thread, or no employers. Otherwise the store does change, and the thread key then holds the outreach thread. |
| EmployerSeed.SeedDemoIdempotent | js/employer-dashboard.js:401-402 | Seeding twice equals seeding once, whatever the second clock reading. |
| EmployerSeed.SeedDemoMessagesForStudent | js/employer-dashboard.js:397-415 | The handler's new store is the seeded store of the old one. |
| EmployerSeed.PeerThread | js/employer-dashboard.js:427-433 | The thread holds `min(3, students) + 1` messages. Student `i` sends at `now - (i+1)` hours, strictly decreasing. The reply, half an hour before `now`, comes last and is the newest; its sender is the first employer, else the user, else `Employer`. |
| EmployerSeed.BuildPeerThread | js/employer-dashboard.js:427-433 | The `slice(0, 3).forEach` loop plus the reply build exactly that thread. |
| EmployerSeed.SeededPeers | js/employer-dashboard.js:418-437 | Only the thread key can change. Nothing changes for an empty email, a non-empty or unparsable thread, or no students. Otherwise the store does change, and the thread key then holds the peer thread. |
| EmployerSeed.SeedPeersIdempotent | js/employer-dashboard.js:422-423 | Populating twice equals populating once. |
| EmployerSeed.SeedStudentsMessagesForStudent | js/employer-dashboard.js:418-437 | It returns true exactly when an email is given, the thread parses and is empty, and there are students. When it returns true the thread key holds the peer thread; when it returns false the store is unchanged. |
| EmployerConversation.Bubbles | js/employer-dashboard.js:470-493 | One bubble per message, in order. A bubble is the viewer's own exactly when the sender is the viewer, and own bubbles carry the receipt rule. |
| EmployerConversation.SeenAfterStudentReads | js/employer-dashboard.js:482-485 | Once the student has read at a non-zero time `t`, an own message shows Seen exactly when it is not newer than `t`. |
| EmployerConversation.DeliveredUntilStudentReads | js/employer-dashboard.js:482-485 | With no student watermark, every own message shows Delivered. |
| EmployerConversation.MessageAge | js/employer-dashboard.js:440-452 | The age is in seconds under a minute, minutes under an hour, hours under a day, and days beyond. The amount is the elapsed milliseconds over the unit, rounded down. |
| EmployerConversation.AgeText | js/employer-dashboard.js:444-450 | The label ends in the unit letter followed by ` ago`, and `parseInt` reads the amount back from it. |
| EmployerConversation.LoadConv | js/employer-dashboard.js:454-498 | It seeds only an empty thread. It renders the seeded thread against the student's watermark. It then sets the viewer's watermark to `now`, unconditionally. |
| EmployerConversation.LoadConvClearsUnread | js/employer-dashboard.js:497 | After `loadConv` at `now`, the viewer has nothing unread in that thread, provided no message is stamped after `now`. |
| EmployerConversation.AppendCountsOnce | js/employer-dashboard.js:557-559 | Appending one message, as the corrected send and "Simulate incoming" do, changes the unread count by one exactly when the new message is unread. |
| EmployerConversation.SendMessage | js/employer-dashboard.js:552-564 | The corrected send (see Findings). With no selection nothing happens. Otherwise the old thread stays as a prefix (a malformed one becomes empty) and exactly one message is added: from the user's name or `Employer`, with the trimmed text, at `now`. Then the viewer's watermark is set, the re-rendered view is the bubbles of the new thread under the student's own watermark, and the badge is recomputed. |
| EmployerConversation.SendMessageAsWritten | js/employer-dashboard.js:552-558 | The send as written throws at the out-of-scope `common` before `push`, so it returns no refresh and writes nothing. |
| EmployerConversation.SendAsWrittenLosesMessage | js/employer-dashboard.js:558 | With a student selected, the corrected send's thread has exactly one more message than before, so its store differs from the unchanged store the send as written leaves. |
| EmployerConversation.SenderName | js/employer-dashboard.js:558 | The sender is never empty: the user's name when it is set, otherwise `Employer`. |
| EmployerConversation.ReceiptFor | js/employer-dashboard.js:483-485 | `Seen` only when the student's watermark is a number at or after the message; a missing, NaN or zero watermark gives `Delivered`; a non-zero watermark at or after the message gives `Seen`. |
| EmployerConversation.SimulateIncoming | js/employer-dashboard.js:525-535 | It posts exactly when a student is selected and the thread parses. The old thread stays as a prefix and one message from the student is added. Otherwise nothing is written. |
| EmployerConversation.PopulateFromStudents | js/employer-dashboard.js:541-548 | It refreshes exactly when the peer seed wrote something. The new store is the populated one plus the viewer's watermark, and the re-rendered view is the bubbles of the peer thread under the student's own watermark. Otherwise nothing changes. |
| EmployerSync.OnStorageKey | js/employer-dashboard.js:598-607 | A missing key or any non-conversation key is ignored. The open thread reloads exactly on its own thread key, or on any key starting with `demoLastRead_` plus the selected email. |
| EmployerSync.OtherThreadOnlyRefreshes | js/employer-dashboard.js:601-605 | A change to another student's thread refreshes the badges without reloading the open thread. |
| EmployerSync.WatermarkPrefixReloads | js/employer-dashboard.js:605 | Because the test is a prefix test, the watermark of an email that merely extends the selected one also reloads. |
| EmployerSync.ReloadWriteRetriggers | js/employer-dashboard.js:605 | The watermark key that `loadConv` writes reloads the open thread in another tab, which writes it again. |
| EmployerSync.OnStorageKeyCorrected | js/employer-dashboard.js:605 | The corrected rule reloads exactly on the open thread's key or the student's own watermark key. |
| EmployerSync.CorrectedReloadSettles | js/employer-dashboard.js:605 | Under the corrected rule the viewer's own watermark write no longer reloads the thread, while a new message in it still does. |
| EmployerSync.FlashesIncoming | js/employer-dashboard.js:609-614 | The last message flashes exactly when the thread has one and someone other than the viewer wrote it. |
| EmployerSync.FlashAfterAppend | js/employer-dashboard.js:609-614 | After one message is appended to the open thread, the reload flashes exactly when that message's sender is not the viewer. |
| EmployerSync.SimulatedMessageFlashes | js/employer-dashboard.js:525-535 | The store a simulated incoming message leaves behind flashes in another tab exactly when that tab's viewer is not the student. |
| EmployerSync.SentMessageDoesNotFlash | js/employer-dashboard.js:552-561 | The store the corrected send leaves behind, thread and watermark written, never flashes for the sender's own name. |
| EmployerSync.SentMessageFlashesOtherTabIffNameless | js/employer-dashboard.js:558-612 | Over the store the corrected send leaves behind, another tab of the same employer, whose `me` defaults to the empty text, flashes the sent message exactly when the user's name is empty, because the message is then from `Employer`. |
| EmployerApplications.CandidateKeyIsFirstNonEmpty | js/employer-dashboard.js:219 | The candidate key is the first non-empty field among candidate email, name, email and id. It is empty only when all four are. |
| EmployerApplications.KeysOrderStable | js/employer-dashboard.js:220 | The map keeps insertion order: the keys after the first `n` rows are a prefix of the keys after all rows. |
| EmployerApplications.FirstRowKeyFirst | js/employer-dashboard.js:220 | The first row's key is the map's first key. |
| EmployerApplications.RowsFor | js/employer-dashboard.js:218-223 | A candidate's rows all carry that candidate's key and all come from the input. |
| EmployerApplications.KeyPresentIff | js/employer-dashboard.js:219-220 | A candidate is in the map exactly when some application has its key. |
| EmployerApplications.KeysDistinct | js/employer-dashboard.js:220 | No candidate key appears twice. |
| EmployerApplications.EveryRowGrouped | js/employer-dashboard.js:218-223 | Every application lands in the group of its own key. |
| EmployerApplications.SumRowsAppend | js/employer-dashboard.js:222 | One more application adds one to the total of any key list that holds its key once. |
| EmployerApplications.CountsSumToTotal | js/employer-dashboard.js:218-223 | The group counts add up to the number of applications. |
| EmployerApplications.GroupStepOpen | js/employer-dashboard.js:219-223 | A row with a key not yet in the map opens a group of its own, with that row's name and email, count 1 and the row alone; the key joins the end of the order and every other group is unchanged. |
| EmployerApplications.GroupStepJoin | js/employer-dashboard.js:219-223 | A row whose key is already in the map is appended to that group's rows and adds one to its count; the order and the first row's name and email stay as they were. |
| EmployerApplications.GroupByCandidate | js/employer-dashboard.js:216-224 | The loop's map is the grouping of all the applications. |
| EmployerApplications.JobLabel | js/employer-dashboard.js:194 | A synthetic row's job label is never empty: the job's title, else its id, else `Demo role`. |
| EmployerApplications.PadApplications | js/employer-dashboard.js:179-199 | With fewer than 12 rows and some students and jobs, the list grows to exactly 12. The original rows stay as a prefix and row `i` is the round-robin synthetic row. Otherwise the list is unchanged. |
| EmployerApplications.PaddingIsRoundRobin | js/employer-dashboard.js:187-192 | Synthetic row `i` is grouped under the email of the student at index `i` modulo the number of students. |
| EmployerApplications.ChartLabel | js/employer-dashboard.js:104 | Labels of at most 30 characters are kept. Longer ones become their first 28 characters plus `...`, 31 in all. |
| DashboardCommon.AgoText | js/dashboard-common.js:310-314 | The label is `just now` exactly for the under-ten-seconds case and `NaNd` exactly for an invalid date; an elapsed label is never either. |
| DashboardCommon.TimeAgo | js/dashboard-common.js:306-316 | An invalid date gives the NaN label. Otherwise the elapsed whole seconds choose the bucket: `just now` under 10, then seconds under 60, minutes under 3600, hours under 86400, and days beyond. The amount is the seconds over the unit, rounded down. |
| DashboardCommon.AgoTextReadsBack | js/dashboard-common.js:309-314 | An elapsed label reads back as its amount under `parseInt` and ends in its unit letter. |
| DashboardCommon.AgoTextInjective | js/dashboard-common.js:309-314 | Different relative times never share a label. |
| DashboardCommon.Cleared | js/dashboard-common.js:157-163 | Exactly the demo-prefixed keys and the two flags are removed, and every other entry keeps its value. |
| DashboardCommon.ClearedIdempotent | js/dashboard-common.js:157-163 | A second clear removes nothing. |
| DashboardCommon.ClearDemo | js/dashboard-common.js:154-165 | When confirmed, the store becomes the cleared store. When declined, it is untouched. |
| DashboardCommon.CompactLabel | js/dashboard-common.js:128 | The label reads `Compact` exactly when compact mode is off. |
| DashboardCommon.RestoredCompact | js/dashboard-common.js:115 | Restored compact mode is on exactly when the stored value is the text `true`. |
| DashboardCommon.CompactRoundTrip | js/dashboard-common.js:115-126 | The mode that is written is the mode a later load restores. |
| DashboardCommon.NextLabel | js/dashboard-common.js:393 | The tour button reads `Done` exactly on the last of the five steps. |
| DashboardCommon.SelectsExactlyOne | js/dashboard-common.js:235-236 | With distinct ids, showing a present id marks exactly one entry. |
| DashboardCommon.Tour.Render | js/dashboard-common.js:385-394 | It shows the current step's title and the button label for that step. |
| DashboardCommon.Tour.Show | js/dashboard-common.js:361-403 | Nothing changes when the overlay is already up. Otherwise it opens at step 0 with `Next`. |
| DashboardCommon.Tour.Next | js/dashboard-common.js:395-399 | The index goes up by one. Past the last step the overlay closes and `seenDemoTour` becomes `1`; before it, storage is untouched. |
| DashboardCommon.Tour.Close | js/dashboard-common.js:400 | The overlay closes without marking the tour seen. |
| DashboardCommon.Dashboard.RestoreCompact | js/dashboard-common.js:114-117 | Compact mode comes back on exactly when the stored value is `true`, and the label matches it. |
| DashboardCommon.Dashboard.ToggleCompact | js/dashboard-common.js:211-220 | A boolean argument sets the mode and no argument flips it. The new mode is written as `true`/`false` and the label follows it. |
| DashboardCommon.Dashboard.ShowSection | js/dashboard-common.js:234-252 | Exactly the sections with the id become active. Exactly the matching nav links get `page` and the rest `false`. The current section becomes the id. |
| DashboardCommon.Dashboard.AutoTour | js/dashboard-common.js:174-177 | When `seenDemoTour` is missing or empty, it shows the tour and sets the flag. Otherwise it does nothing. |

## Left out

- DOM construction and rendering are left out because they hold no further behaviour: list items, avatars, innerHTML, tooltips, focus and scrolling. The model keeps only the rendering decisions, which are bubble side, receipts, badges, labels, active flags and `aria-current`.
- The SVG chart geometry is floating-point layout. Only the label truncation is modelled.
- The network and authentication are I/O: `apiRequest`, `getCurrentUser`, the file:// auto-login and the login redirect. Their results are parameters: the job list, the demo accounts, and the user's name and email.
- Timers are modelled as immediate. The auto-tour's 800 ms delay and the timestamp refresher are timers, and notifications, `confirm` and `location.reload` are UI effects. The answer to `confirm` is a parameter.
- `Date.now()` is a parameter `now`. Each handler's several clock readings are modelled as one reading, so a thread seeded inside `loadConv` shares the watermark's `now`.
- `Math.random()` in application padding is a parameter: a function from the row index to the two draws.
- Locale formatting is left out: `formatDate`, `formatCurrency`, `toLocaleString`, and the Blob-based conversation export.
- JSON parsing itself is left out. A stored value is a message array (`Thread`) or other text (`Text`). A `Text` is always read as unparsable, even when it holds JSON array text such as `[]`; the model assumes array texts are stored as `Thread`. Any stored JSON value that is not an array (`null`, a number, a boolean, an object, a string) is modelled like corrupt text. For the unread count the source agrees: `(msgs||[]).filter` gives 0 or throws into the catch that returns 0 (js/employer-dashboard.js:347-348). For "Simulate incoming" it agrees too: `msgs.push` throws into the catch and nothing is written (js/employer-dashboard.js:531-534). The members where it does not are listed next.
- EmployerSeed.SeededDemo: the source's `existing && existing.length>0` test (js/employer-dashboard.js:402) is false for `null`, a number, a boolean, an object without a positive `length`, and the empty JSON string, so the source seeds over those values. The model leaves every non-array value alone. Over a non-empty JSON string both keep the value.
- EmployerSeed.SeededPeers: the same difference, at js/employer-dashboard.js:423.
- EmployerConversation.LoadConv: the source's `!msgs` test (js/employer-dashboard.js:460) seeds over `null`, `false`, `0` and the empty JSON string. Over any other non-array value, or over one of those four when seeding wrote nothing, `msgs.forEach` (js/employer-dashboard.js:470) throws before the watermark is written. The model renders an empty thread and writes the watermark.
- EmployerConversation.SendMessage: this is the corrected send; the source as written writes nothing (see Findings). Over text that is not JSON at all, the corrected send starts a one-message thread, as the `catch` around `JSON.parse` (js/employer-dashboard.js:557) would let it. Over a stored non-array JSON value, `msgs.push` would throw even once `common` resolved, and the model writes a one-message thread instead.
- EmployerSync.FlashesIncoming: over a stored non-empty JSON string, the source's flash test (js/employer-dashboard.js:610-613) would hold, because the last character's `from` is undefined and so differs from `me`. The listener never reaches it: the `loadConv()` call before it (js/employer-dashboard.js:607) throws at `msgs.forEach`, which also skips `updateEmployerBadge()`. The model says no flash, and its reload (`EmployerConversation.LoadConv`) renders an empty thread instead of throwing.
- Cross-tab behaviour is left out: event delivery order and the lost update between two tabs writing the same thread. Store operations are sequential.
- DashboardCommon.TimeAgo: a date is epoch milliseconds or invalid. Date-string parsing is not modelled, and neither is the `String(dateish)` fallback taken when the argument is not a date at all.
- JsText.ParseInt: the precision loss of numbers beyond 2^53 is not modelled. Timestamps and counts here stay far below it.
- An empty stored string and a missing key are distinct values in the model. Every reader treats them alike, through the `'[]'` and `'0'` defaults.
- EmployerConversation.SendMessage does not model clearing the input field after sending.
- EmployerConversation.SendMessage: the badge it returns is the corrected sum of unread counts (`EmployerUnread.UpdateEmployerBadge`). The source as written always hides the badge (see Findings).
- EmployerConversation.PopulateFromStudents: the badge it returns is the corrected one too, for the same reason.
- EmployerApplications.ChartLabel: lengths and the cut count code points, while JavaScript's `length` and `slice` count UTF-16 code units. A label with characters outside the Basic Multilingual Plane differs: 16 emoji are 32 units, which the source cuts to 14 emoji plus `...`, and the model keeps whole.
- EmployerApplications.Application: a field the row lacks is the empty string, and every field is a string. The source's `||` chain (js/employer-dashboard.js:219) keeps a missing field (`undefined`) and `''` apart as `Map` keys when every field is falsy, and a numeric `id` of 0 is falsy where the model's `"0"` is not.
- EmployerApplications.GroupByCandidate does not model rendering the candidate cards it feeds.

## Findings

| source | as written | input that shows it | evidently intended | confidence | as-written member | corrected member |
|---|---|---|---|---|---|---|
| js/employer-dashboard.js:510 | `updateEmployerBadge` calls `getLastRead`, which is declared only inside `loadConv` (:468). The name does not resolve, and each student's step throws into its own `catch`. | A thread of student `ana@uni.test` holding one message from the student at time 5, with no watermark stored. | The sidebar badge shows `1`: the sum of the unread counts, as `computeUnreadForStudent` computes it. | not executed; medium, because it assumes no other script defines a global `getLastRead` | EmployerUnread.UpdateEmployerBadgeAsWritten, EmployerUnread.BadgeAsWrittenMissesUnread | EmployerUnread.UpdateEmployerBadge |
| js/employer-dashboard.js:558 | The submit handler reads `common.user`, but `common` is declared only inside the `DOMContentLoaded` handler (:319), and `setupEmployerMessaging` (:331) is declared beside that handler, not inside it. The name does not resolve, so the handler throws before `push`, with no `try` around it. | Student `ana@uni.test` selected and any input typed: the thread is unchanged, and neither `loadConv` nor the badge update runs. | The typed message is appended to the thread from the user's name, or `Employer`, and the thread is reloaded. | not executed; medium, because it assumes no other script defines a global `common` | EmployerConversation.SendMessageAsWritten, EmployerConversation.SendAsWrittenLosesMessage | EmployerConversation.SendMessage |
| js/employer-dashboard.js:605 | The reload test `ev.key.startsWith('demoLastRead_' + selected)` matches the watermark that `loadConv` itself writes (:497) with a fresh clock reading. | Two tabs have the same student selected. Either one opening the thread writes the student's watermark key for its viewer, which makes the other reload and write it again. | Reload only on the open thread's key or the student's own watermark key, whose changes alter Seen/Delivered. | not executed; high for the rule itself | EmployerSync.OnStorageKey, EmployerSync.ReloadWriteRetriggers | EmployerSync.OnStorageKeyCorrected, EmployerSync.CorrectedReloadSettles |
