# Slack workspace exporter: a verified model of its control logic

The exporter runs in one process against the Slack Web API. It fetches:

- the workspace's users;
- every conversation the token can see;
- each conversation's history and the replies of every thread in it;
- every attachment of those messages.

It saves all of this under an export timestamp `now` and records its progress in a checkpoint file, so that a run that stops can be resumed. This project models the control logic of `main.py` that sits between the remote API and the file system. Each part is written in the source's own form: loops are methods with loop invariants, expressions are functions. The loops over remote calls (the retry loops, the cursor loop, the thread loop) are proved equal to recursive specification functions, and the properties the exporter promises are proved as lemmas about those functions. `save_files` and `main` are specified by their effects instead: which files were attempted and how each ended, which channels were exported, and which records were written.

The modules, in dependency order:

| file | module | what it models |
|---|---|---|
| `remote.dfy` | `Remote` | Answers of the remote as values: API replies, HTTP replies, listing pages. Also the failures the exporter raises and the outcome of a remote step. |
| `records.dfy` | `Records` | The fields of users, channels, messages and attachments that the exporter reads. |
| `retry.dfy` | `Retry` | `retry_on_rate_limit` and `download_file_with_retry`. |
| `pagination.dfy` | `Pagination` | `fetch_next_cursor` and the cursor loop of the listing calls. |
| `channels.dfy` | `Channels` | `get_users`, `get_accessible_channels` and the naming of direct messages. |
| `messages.dfy` | `Messages` | `get_messages`: the history, then the replies of every thread root. |
| `sorting.dfy` | `Sorting` | `sort_messages`. |
| `files.dfy` | `Files` | `save_files`. |
| `checkpoints.dfy` | `Checkpoints` | The progress files and the saved user and channel lists, as a class `ExportDirectory` whose methods update maps. |
| `export.dfy` | `Export` | `main`: the checkpointed run. |

## How the remote is represented

Every remote call is an oracle: the sequence of answers the remote gives to successive attempts. This covers a Slack Web API method, one attempt of an HTTP GET, one listing per channel id, one replies listing per thread and one download per `url_private`.

Each loop consumes its oracle and records the seconds it would sleep, in order. A loop that runs out of answers while the source would still be retrying or paging ends with the outcome `Pending`. So every loop terminates, and every property is stated for any finite prefix of what the remote does. An exception the source raises is the outcome `Failed(f)`, where `f` names the exception:

- `SlackApiError` re-raised;
- `KeyError` on a missing field;
- the `IndexError` of a direct message whose user is not listed;
- the download path's two `Exception`s;
- a re-raised transport error;
- `FileNotFoundError`.

The settings of `Const` that change behaviour are parameters:

- the retry ceiling `MAX_RATE_LIMIT_RETRIES`, where 0 means unlimited;
- `ACCESS_WAIT`;
- `CONVERSATIONS_ACCESS_WAIT`;
- `IS_MARKETPLACE_APP`.

`Export.Defaults` holds the shipped values (`const.py:21-42`), and `Export.ShippedSettings` states what they mean for a run.

## Model

| member | source | states |
|---|---|---|
| Retry.RetryOnRateLimit | main.py:38-79 | The API retry loop returns the outcome, the sleeps in order and the number of answers consumed that `InvokeFrom` gives for the oracle, starting from zero retries. |
| Retry.InvokeThrottledStep | main.py:48-77 | A `ratelimited` answer below the ceiling costs exactly the backoff for its retry number, then the loop continues on the remaining answers. |
| Retry.InvokeWaits | main.py:48-77 | Every sleep follows a `ratelimited` answer and lasts the backoff of that answer's hint for its retry number. A finished call slept once less than it called. A pending call saw only throttling. |
| Retry.InvokeLastReply | main.py:39-79 | A successful call returns the value of its last answer. A failing call raises the `SlackApiError` of its last answer, and a `ratelimited` one only once the retry count reaches a positive ceiling. |
| Retry.InvokeCeiling | main.py:68-71 | With a positive ceiling, a call makes at most that many attempts in all. It is never left pending once that many answers exist. |
| Retry.InvokeUnlimited | main.py:69-71 | With ceiling 0, throttling is never raised. |
| Retry.ApiBackoffBounds | main.py:52-66 | The API wait is the hint itself up to the fifth retry. After that it is at most 300 s. For a hint that is not negative it is also at least the capped hint, and it never shrinks from one retry to the next. |
| Retry.DefaultWaitScenario | main.py:52-77 | A throttled answer with no hint waits 60 s, and the next answer is returned. |
| Retry.DownloadFileWithRetry | main.py:97-152 | The download loop returns the outcome, the sleeps in order and the number of attempts that `DownloadFrom` gives for the attempts' replies. |
| Retry.DownloadStep | main.py:107-152 | One attempt. HTTP 200 returns its body. Any other status except 429 fails with that status. A 429 or a transport error fails at the ceiling; below it, the attempt sleeps the wait for its retry number and goes on. |
| Retry.DownloadWaits | main.py:109-152 | Every download sleep follows a 429 or a transport error and lasts that kind's wait for its retry number. A finished download slept once less than it attempted. |
| Retry.DownloadLastReply | main.py:107-149 | A successful download returns the body of a final 200. A failure on a non-retryable answer carries its status. A failure on a retryable answer happens only at the ceiling. |
| Retry.DownloadCeiling | main.py:117-149 | With a positive ceiling, a download makes at most that many attempts and is never left pending once that many replies exist. |
| Retry.DownloadWaitBounds | main.py:111-144 | A transport error waits 10 s up to the fifth retry and 300 s after it. After the fifth retry, a 429 waits at most 300 s, and that wait no longer depends on the retry number. |
| Pagination.NextCursorCases | main.py:417-424 | A missing `response_metadata`, a missing `next_cursor` and an empty cursor all mean no next page. A non-empty cursor is returned unchanged. |
| Pagination.NextPage | main.py:269-285 | One iteration of the cursor loop, through the retry wrapper. Either the listing stops here, or the page has a next cursor and the listing is its kept items followed by the listing from that cursor. |
| Pagination.Paginate | main.py:266-283 | The cursor loop, starting without a cursor, returns exactly `PaginateFrom` on the oracle: its outcome, pages, cursors, sleeps and answers consumed. |
| Pagination.InvokeAnswers | main.py:39-41 | A call consumes only throttling answers and, when it succeeds, exactly one answer: the value it returns. |
| Pagination.PagesAreAnswers | main.py:269-283 | The pages of a listing are exactly the successful answers it consumed, in order: one successful call per page. |
| Pagination.ListingCursors | main.py:266-283 | The first call sends the starting cursor. Every later call sends the next cursor of the page before it. A finished listing ends on a page with no next cursor. |
| Pagination.ListingIsConcatenation | main.py:278-283 | A finished listing is the concatenation of its pages' kept items in request order, without deduplication. A finished or pending listing sleeps once per answer consumed. A failed listing sleeps once less. |
| Pagination.ListingSleeps | main.py:269-283 | Each sleep of a listing follows the answer at the same position. After a page it is the pacing interval, the last page included. Otherwise the answer was throttled, and the sleep is the backoff of that answer's hint for its retry number within its call (`Streak`: the throttled answers since the last page). |
| Pagination.TwoPageScenario | main.py:266-283 | Two pages with cursor `"c1"` and then `""` give two calls, sent with no cursor and then `"c1"`, all items in order, and one pacing sleep after each page. |
| Channels.GetUsers | main.py:247-260 | `get_users` is one `users_list` call through the retry wrapper with no pagination, plus one pacing sleep when it succeeds. |
| Channels.FirstUserWith | main.py:295 | The position of the first user with the given id. It is absent exactly when no user has that id. |
| Channels.NameChannels | main.py:291-297 | The naming comprehension succeeds exactly when every channel can be named, and then names each one in place, keeping the length and order. Otherwise it raises the error of the first channel that cannot be named. |
| Channels.NamedChannels | main.py:291-297 | A channel that is not a direct message comes out unchanged. A direct message differs only in its name, which is "@" followed by the `real_name` of the first user whose id is its `user`; such a user exists. |
| Channels.DirectMessageScenario | main.py:291-297 | A direct message with user "U1", and a user "U1" called "Jane", give the name "@Jane". |
| Channels.GetAccessibleChannels | main.py:263-305 | `get_accessible_channels` returns `AccessibleChannels` of the oracle: the listing's channels, named. |
| Channels.ChannelsAreNamedListing | main.py:278-297 | The channels returned are the concatenated pages of the listing, named one for one. |
| Messages.DropEcho | main.py:393-396 | The replies filter keeps exactly the messages that are not roots. It raises `KeyError('thread_ts')` when a reply lacks `thread_ts`. |
| Messages.DropEchoCounts | main.py:393-396 | The filter keeps each message that is not a root as often as it occurs: what it keeps and the roots it drops make up the page. |
| Messages.TakenRepliesAreNotRoots | main.py:393-396 | No reply kept from any page of a thread is a root, and every one of them carries `thread_ts`. |
| Messages.ThreadHasNoRoots | main.py:378-406 | A fetched thread holds no root. |
| Messages.ThreadRepliesHaveNoRoots | main.py:374-406 | No message appended by the threads is a root. |
| Messages.ReconcileThreads | main.py:374-406 | The generator over the list being extended comes to the same result as walking the history's roots alone: the history followed by each root's replies, in root order. Each root's `thread_ts` is queried exactly once. |
| Messages.GetMessages | main.py:341-414 | `get_messages` returns the history listing followed by the replies of its threads, or the first failure. |
| Messages.ChannelMessagesShape | main.py:341-414 | The result starts with the concatenated history pages and is followed only by replies. Its roots are exactly the history's roots, in the same order and number. Every added reply carries a `thread_ts` that differs from its `ts`. |
| Sorting.SortMessagesCorrect | main.py:427-429 | The result is ordered by `ts` (string order by code point) and is a permutation of the input, duplicates included. |
| Sorting.SortMessagesStable | main.py:427-429 | Messages with the same `ts` keep their input order. |
| Sorting.SortScenario | main.py:427-429 | Messages with `ts` "2.0" and "1.0" come out as "1.0", then "2.0". |
| Files.LiveMembers | main.py:477 | An attachment is passed to the downloader exactly when it is one of the message's files and not a tombstone. |
| Files.EligibleMembers | main.py:475-477 | Across a channel, an attachment is downloaded exactly when some message carries it and it is not a tombstone. |
| Files.SavedNameInjective | main.py:488 | The saved file's name is the file id, `_`, then the file name. Two attachments whose ids hold no `_` get the same name exactly when they have the same id and name. `Files.SavedName` stands alone: the model records attempts, not the files written, so nothing else uses it. |
| Files.SaveAttachments | main.py:477-497 | Every live file of one message is attempted in order. Each ends as the download loop ends on that file's replies, and each is followed by one access wait. A pending download stops the walk there. |
| Files.SaveFiles | main.py:466-499 | Every eligible attachment of the channel is attempted in order. A failed download does not stop the walk, each outcome is the download loop's, and each attempt is followed by one access wait. |
| Files.CompleteSettles | main.py:473-495 | A walk over the files that got through met no file whose download was still retrying. |
| Files.InterruptedStalls | main.py:473-495 | A walk cut short stopped at one of its files, and that file's download was still retrying when its replies ran out. |
| Files.TombstoneScenario | main.py:475-477 | Of a message with a hosted and a tombstoned file, only the hosted one is downloaded. |
| Checkpoints.Lookup | main.py:520-536 | `load_progress` returns the saved record of `now`, or the empty record when there is none. |
| Checkpoints.SaveThenLookup | main.py:513-525 | A saved record reads back as saved. Saving one timestamp's record leaves every other timestamp's record as it was. |
| Checkpoints.CleanupThenLookup | main.py:539-544 | After cleanup the export reads as never started. Other exports are untouched. |
| Checkpoints.ExportDirectory.SaveProgress | main.py:513-517 | `save_progress` replaces the record of `now` as a whole and writes nothing else. |
| Checkpoints.ExportDirectory.LoadProgress | main.py:520-536 | `load_progress` reads the record of `now`, or the empty record. |
| Checkpoints.ExportDirectory.CleanupProgress | main.py:539-544 | `cleanup_progress` removes the record of `now` if it is present and touches nothing else. |
| Checkpoints.ExportDirectory.SaveUsers | main.py:315-325 | `save_users` writes the users of `now` and nothing else. |
| Checkpoints.ExportDirectory.LoadUsers | main.py:547-553 | `load_users` returns the saved users of `now`, or raises `FileNotFoundError`. |
| Checkpoints.ExportDirectory.SaveChannels | main.py:328-338 | `save_channels` writes the channels of `now` and nothing else. |
| Checkpoints.ExportDirectory.LoadChannels | main.py:556-562 | `load_channels` returns the saved channels of `now`, or raises `FileNotFoundError`. |
| Export.ShippedSettings | const.py:21-42 | With the shipped settings, history and replies pages are paced by 60 s and other calls by 2 s, and throttling never fails a call, since retries are unlimited. |
| Export.ToProcessFresh | main.py:200-203 | Every channel the loop exports is one of the list, and its id was not processed before. |
| Export.ToProcessDistinct | main.py:200-212 | No id is exported twice, even when the channel list repeats it. |
| Export.ToProcessCovers | main.py:200-212 | Every channel of the list ends up processed, either earlier or in this run. |
| Export.ResumeContinues | main.py:198-217 | Resuming continues the run: once the first `n` channels to export are recorded as processed, the channels left to export are exactly the rest. |
| Export.ExportChannel | main.py:205-209 | The try block for one channel. Its messages are fetched and sorted, and every live file is attempted. An exception is the one the messages raised. Once the messages are fetched, the saved messages are their sorted list, and a channel that does not get through stopped at a file still downloading. The channel ends still retrying exactly when a call for it ran out of replies: the messages call, or the download of one of its live files. |
| Export.ObtainUsers | main.py:182-188 | The users are fetched, saved and flagged only when the record says they were not fetched yet. Otherwise they are loaded, or `FileNotFoundError` is raised. |
| Export.ObtainChannels | main.py:190-196 | The channel list is fetched, named, saved and flagged only when the record says it was not fetched yet. Otherwise it is loaded, or `FileNotFoundError` is raised. |
| Export.Prepare | main.py:180-196 | The phases before the loop write only the files of `now`. A record with both flags set is left as it was. Once the users are obtained, the users of `now` are that list and the record says users are fetched, even if the channels then fail. When the users or the channels fail or stay pending, the channel list of `now` is untouched, and so are its users if they were not obtained. The record of `now` is then as loaded, or says only that the users are fetched when this run fetched them. Once the channel list is obtained from a well-formed record, the record of `now` has both flags set and keeps its processed list, and the channels of `now` are the list obtained. |
| Export.ExportNext | main.py:200-222 | A channel not yet processed is exported. When that succeeds, its id is appended and the whole record is saved with it. Otherwise the record is untouched and the channel is the next one of the plan. An exception is the one its messages raised, and a channel still retrying has a call for it that ran out of replies. |
| Export.ExportChannels | main.py:198-227 | The channels exported are a prefix of those to process. The loop finishes exactly when they are all of them, and the record is then removed. A channel that stops the loop is the next one to process. An exception is the one its messages raised, and a loop still retrying stopped on a channel with a call that ran out of replies. |
| Export.RunExport | main.py:155-231 | `main` touches only the record and files of `now`. A failure before the loop exports nothing. When a run stops early, its record lists only channels processed before or exported now. If the loaded record was well formed, it lists exactly those, and once the channel list was obtained it has both flags set. Users obtained are saved under `now`, and the record of a run that stops says so. A run that fails before its channel list is obtained leaves the channel list of `now` untouched, and its users too if they were not obtained. Its record is as loaded, or says only that the users are fetched when this run fetched them. The run finishes exactly when every channel to process is exported, and a finished run leaves no record. A run that stops in the loop stops at the next channel of the plan, on the exception its messages raised or on a call for it that ran out of replies. |

## Left out

- Logging, the real sleeps and the wall clock are left out. Sleeps are recorded as lists of seconds instead of being performed.
- The 10-second delay before a fresh run (main.py:165-167) is left out because it is wall-clock time only.
- `now` is a parameter. Building it from the current date (main.py:163) and resume discovery are left out. Resume discovery covers the environment variable, the `--resume` scan of progress files by modification time, and the hint logged by `load_progress`.
- `init_webclient`, the tokens, request headers and timeouts, and the `limit` sent with each listing call are left out. The remote is an oracle, so page sizes are whatever its pages hold.
- `ensure_export_directory`, the contents written by `save_messages`, `format_ts` and the per-day split are left out. They depend on local time zone and float parsing. The model keeps the sorted messages that are saved, not the files they are written to.
- `archive_data` (zip and remove) is left out. The model goes from the last channel straight to cleanup, so a failure while archiving, which would leave the record in place, is not represented.
- `KeyError` on fields the model assumes are present is left out. These are `members`, `channels`, `messages`, `id`, `is_im`, `user`, `ts`, `mode`, `url_private` and `name`. A missing `name` on a file (main.py:478, outside the `try`) or on a channel (main.py:202, 208-209, 220) would end the run. The modelled `KeyError`s are `thread_ts` on a reply and `real_name` on a user.
- An exception other than `SlackApiError` raised by a Web API call, such as a transport error of the client (main.py:41-42, 256-258), is not caught by `retry_on_rate_limit` and ends the call at once. The model has no reply for it. A non-throttling `SlackError` reply follows the same path and ends the call at once, but the failure it raises is then named `SlackApiError`.
- The model takes `e.response` of a `SlackApiError` to be a dict holding `error`. When it is not a dict, main.py:48 treats the error as not throttling and re-raises it, whatever its `error`; that case is not represented. The client library's classes are not part of this model.
- Retry.ApiBackoff: the growth factor `1.5 ** (retry_count - 5)` is computed over exact reals, not binary floating point, so rounding is not modelled. Nor is overflow: with unlimited retries (the shipped ceiling 0), `1.5 ** 1751` overflows a float at retry 1756, and main.py:65 raises `OverflowError`. The model instead goes on waiting 300 s. An `int()` header that does not parse is not modelled either.
- Retry.InvokeFrom: a negative retry hint makes `time.sleep` raise `ValueError` at main.py:77, which ends the call. The model records the negative wait and retries.
- Retry.DownloadFrom: a 429 with a negative `Retry-After` makes `time.sleep` raise `ValueError` at main.py:123, which ends the download. The model records the negative wait and retries.
- Files.SaveFiles: writing a downloaded body to disk is not modelled. Neither is an exception raised while writing, which the source catches and logs like a failed download. Only the download outcomes are recorded.
- `ConstMeta` (const.py:4-10) is left out. Setting a new attribute on `Const` would not set it: `self.__setattr__` on the class resolves to `object.__setattr__`, so the call raises `TypeError`. Nothing in the exporter assigns to `Const`.

Behaviours of the code worth noting, all modelled as written:

- The listing loop sleeps the pacing interval after every page, the last one included, so a two-page listing sleeps twice (`Pagination.TwoPageScenario`).
- On HTTP 429 after the fifth retry, the download path waits `min(2 * retry_after, 300)`. The wait does not grow with further retries (`Retry.DownloadWaitBounds`).
- `get_users` makes a single `users_list` call and does not paginate.
- At the retry ceiling, the API path re-raises the throttling `SlackApiError` itself.
- A finished run removes its progress record, so running again with the same timestamp fetches everything again.
