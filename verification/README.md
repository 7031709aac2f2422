# Push-up reminder bot: task lifecycle model

A Dafny model of the task lifecycle engine of the push-up reminder bot
(`pushup_mvp/app.py`). The bot sends reminders at configured times of day.
Each reminder creates a task with three buttons: done, skip and snooze 10 minutes.
The bot records the button pressed, times out tasks nobody answered, and counts
the statuses for a weekly summary.

The `tasks` and `events` tables are an in-memory `Store`. `tasks` is a
`map<string, Task>` keyed by task id. `events` is an append-only
`seq<Event>`. Every operation is a pure function or method over that store.
The clock, the generated ids and the configuration are passed in as
parameters:

- `Clock(now, today)` is the moment: epoch seconds and the local date text.
- `Config` holds the recipients, the flattened slot catalog, the timeout and
  snooze windows in minutes, and the time zone as a fixed offset from UTC.
- `ids` is a supply of freshly generated task ids. They are pairwise
  distinct and none is in the store, standing in for `uuid4`.

Modules, one per part of the program:

- `Slots`: the slot catalog and `slot_index`.
- `Model`: status, task, event, store, configuration.
- `TaskStore`: `create_task`, `update_task_status`.
- `Sweep`: `timeout_scan`.
- `Text`, `Callback`: the `action:task_id` callback data and its first-colon split.
- `ClockText`: `%H:%M` rendering and reading of times of day.
- `Reminders`: `send_reminder_for_user`, `send_reminders_batch`.
- `Webhook`: the callback branch of the webhook, including snooze chaining.
- `Report`: the per-user status counts of `weekly_report`.
- `Scenarios`: end-to-end runs combining the operations above.

## Model

| member | source | states |
|---|---|---|
| Slots.SlotIndex | pushup_mvp/app.py:70-75 | The keys of the index are exactly the ids of the slots in all groups. Each key holds a slot from the catalog carrying that id (`Indexed`). When two slots share an id, the one visited later wins. |
| Slots.IndexGroup | pushup_mvp/app.py:73-74 | Indexing one group's slots in order adds them to the table as one more run of assignments after the slots already visited. |
| Slots.IndexAllKeys | pushup_mvp/app.py:70-75 | The keys of the table built by the assignments are exactly the visited ids. |
| Slots.IndexAllLastWins | pushup_mvp/app.py:70-75 | A slot with no later slot of the same id is the one stored under its id. |
| Slots.IndexAllMeaning | pushup_mvp/app.py:70-75 | Both facts at once, for every visited slot: the key set, and the last visit wins. |
| Model.ParseStatus | pushup_mvp/app.py:246-251 | Reading a status text back gives only a status that is stored under that very text. |
| Model.StatusTextRoundTrip | pushup_mvp/app.py:246-251 | Each of the five statuses is read back as itself from its stored text. |
| TaskStore.CreateTask | pushup_mvp/app.py:137-159 | Adds exactly one task, under the fresh id, so the table grows by one. The new task is pending with no action time, dated today and created now. Its deadline is `timeout_minutes*60` seconds after creation, and later than creation exactly when the window is positive. Every other task and the log are unchanged. |
| TaskStore.UpdateTaskStatus | pushup_mvp/app.py:162-172 | Writes the new status and action time `now` on task `id` only, whatever its current status. Every other task is unchanged. For an absent id the tasks are unchanged. Either way exactly one event `(id, no user, status, now)` is appended. |
| TaskStore.UpdateRepeated | pushup_mvp/app.py:162-172 | Applying the same transition twice leaves every task's status as after the first one, and the log grows by two. |
| Sweep.TimeoutScan | pushup_mvp/app.py:215-226 | Every expired pending task becomes `timeout` with action time `now`. Every other task is unchanged, including every task no longer pending. No expired pending task remains, and nothing is logged. |
| Sweep.ExpiredIds | pushup_mvp/app.py:218-226 | The query selects exactly the rows that the sweep's update then changes: no selected row is left as it was, and no other row is touched. |
| Sweep.TimeoutScanRows | pushup_mvp/app.py:215-226 | Selecting the expired rows and then updating them one at a time gives the sweep's effect. |
| Sweep.TimeoutScanIdempotent | pushup_mvp/app.py:215-226 | Sweeping twice at the same moment equals sweeping once. |
| Text.FirstColon | pushup_mvp/app.py:273-275 | The position found holds a colon and no earlier position does. When nothing is found, the text has no colon. |
| Text.Split | pushup_mvp/app.py:273-275 | There is no result exactly when the data has no colon. Otherwise the data is `action + ":" + rest` with no colon in `action`. |
| Text.SplitJoin | pushup_mvp/app.py:275 | Splitting `p + ":" + q` with a colon-free `p` gives `(p, q)`, whatever colons `q` holds. |
| Callback.ParseTag | pushup_mvp/app.py:280-288 | A recognised tag is the tag of the action returned. |
| Callback.TagRoundTrip | pushup_mvp/app.py:280-288 | `done`, `skip` and `snooze10` are each recognised as their own action. |
| Callback.Encode | pushup_mvp/app.py:184-186 | A button's callback data splits at its first colon into exactly its action tag and task id, even when the id contains colons, and the tag is recognised as that button's action. |
| Callback.EncodeInjective | pushup_mvp/app.py:184-186 | Two buttons carry the same data only when they are for the same action on the same task. |
| Callback.Buttons | pushup_mvp/app.py:183-187 | There are three buttons. Each one decodes to the task id, and their tags are done, skip and snooze, in that order. |
| ClockText.TwoDigits | pushup_mvp/app.py:297 | The zero-padded rendering is two digits with no colon, and reads back as the number. |
| ClockText.ParseHhMm | pushup_mvp/app.py:200 | A successful read means the text is two non-empty digit runs joined by one colon, and the result is their decimal values. |
| ClockText.ParseHhMmDigits | pushup_mvp/app.py:200 | Conversely, every pair of non-empty digit runs joined by one colon is read, as their decimal values: `"10:40"` gives `(10, 40)`. |
| ClockText.FormatHhMm | pushup_mvp/app.py:296-297 | `%H:%M` gives five characters with a colon in the middle. Reading it back gives the hour and minute of the local day. |
| Reminders.SendReminder | pushup_mvp/app.py:180-193 | The task is inserted even when the slot lookup fails. The reminder succeeds exactly when the slot id is in the catalog. On success one reminder goes to the user's chat, and every button of it decodes to the new task. |
| Reminders.SendBatch | pushup_mvp/app.py:210-212 | The batch leaves existing tasks and the log untouched, and adds only ids from the supply. |
| Reminders.SendBatchKnownSlot | pushup_mvp/app.py:210-212 | With a known slot, each user, in order, gets a pending task under their own id and one reminder whose buttons decode to that task. |
| Reminders.SendBatchGrowth | pushup_mvp/app.py:210-212 | With a known slot, the batch adds exactly one task per user. |
| Reminders.SendBatchUnknownSlot | pushup_mvp/app.py:180-182 | With an unknown slot, only the first user's task is inserted. The batch then stops without sending anything. |
| Reminders.SendRemindersBatch | pushup_mvp/app.py:210-212 | Over the configured users, with a known slot, the batch completes and the table grows by the number of users. |
| Webhook.ActionStatus | pushup_mvp/app.py:280-289 | No button press writes `pending`. `done` and `skip` are stored under their own tag text, and `snooze10` is stored as `snoozed`. |
| Webhook.SnoozeChain | pushup_mvp/app.py:294-302 | The snooze loop leaves existing tasks and the log untouched and adds only ids from the supply. It does nothing at all when the snoozed task does not exist. |
| Webhook.SnoozeChainKnownSlot | pushup_mvp/app.py:294-302 | For an existing task whose slot is known, the loop completes. A user's id is added exactly when the user is in the pressing chat, as a pending task for the snoozed task's slot. The table grows by the number of such users. |
| Webhook.SnoozeTime | pushup_mvp/app.py:293-297 | The snoozed reminder's time reads back as the hour and minute of the local day `snooze_minutes` after now. |
| Webhook.HandleCallback | pushup_mvp/app.py:269-304 | Data without a colon changes nothing, and neither does an unknown action tag. No task is ever removed. |
| Webhook.PressSetsStatus | pushup_mvp/app.py:280-289 | Pressing a button of an existing task overwrites its status and action time with done, skip or snoozed, whatever the status was. Every other existing task is unchanged. Exactly one event is logged. |
| Webhook.PressDoneOrSkipCreatesNothing | pushup_mvp/app.py:280-287 | `done` and `skip` create no task and send no reminder. |
| Webhook.PressSnoozeChains | pushup_mvp/app.py:288-302 | Snoozing an existing task T with a known slot marks T snoozed. Each configured user of the pressing chat, and only those users, gets one new pending task. The new task has T's slot and the time `snooze_minutes` after now as HH:MM. |
| Webhook.PressSnoozeMissingTask | pushup_mvp/app.py:288-302 | Snoozing an absent id creates no task and sends nothing, but still logs one event. |
| Report.TextLeLexicographic | pushup_mvp/app.py:240 | The text comparison `BETWEEN` uses on the `date` column is lexicographic order: a prefix comes first, otherwise the first differing character decides. |
| Report.TextLeTransitive | pushup_mvp/app.py:240 | The comparison is transitive. |
| Report.WindowNested | pushup_mvp/app.py:231-241 | A window whose ends lie inside a wider window selects no task the wider one does not. |
| Report.TextLeReflexive | pushup_mvp/app.py:240 | Both ends of a `BETWEEN` window lie inside it. |
| Report.TextLeTotal | pushup_mvp/app.py:240 | Any two date texts are ordered one way or the other. |
| Report.TextLeAntisymmetric | pushup_mvp/app.py:240 | Two texts ordered both ways are equal. |
| Report.TallyIsCard | pushup_mvp/app.py:238-241 | Counting over distinct ids gives the number of those tasks that are counted. |
| Report.WeeklyCounts | pushup_mvp/app.py:236-251 | Each status count is the number of the user's tasks dated in the inclusive window with that status. The total is the number of the user's tasks in the window. So done + skip + timeout + snoozed never exceeds the total. |
| Report.Completion | pushup_mvp/app.py:252 | The completion figure is absent (shown as "0%") exactly when the total is 0. Otherwise it is done over total, which is at most one. |
| Report.WeeklyReport | pushup_mvp/app.py:234-251 | There is one row per configured user. Each row holds the counts of that user's window. |
| Report.SweepKeepsWindow | pushup_mvp/app.py:215-244 | A sweep never changes which tasks a report counts, only their statuses. |
| Report.UpdateKeepsWindow | pushup_mvp/app.py:162-244 | A status transition never changes which tasks a report counts. |
| Scenarios.DoneSurvivesSweep | pushup_mvp/app.py:137-226 | A reminder creates a pending task due in 60 minutes. Pressing done marks it done. A sweep 61 minutes after creation leaves it done. The week then counts one task, done. |
| Scenarios.UnansweredTimesOut | pushup_mvp/app.py:137-226 | With no press, the sweep 61 minutes after creation times the task out. The week then counts one task, timed out, none done. |
| Scenarios.LatePressOverwritesTimeout | pushup_mvp/app.py:162-226 | A `done` pressed after the sweep timed the task out replaces the timeout: the last write wins. |

## Left out

- Telegram calls (`send_telegram_message`, `answer_callback`, lines 81-124): these are network I/O. A sent reminder is recorded as a `Reminder` value. The acknowledgement and confirmation messages are not modelled.
- A failed Telegram send raises after the task was committed, which would also stop a batch or snooze loop. It is not modelled: every send with a known slot succeeds.
- Message text (`build_message`, the report text) and the completion percentage's float rendering (`:.0f`): these are string and float formatting. The model stops at the integer counts and the done/total pair.
- SQLite plumbing (`db_connect`, `init_db`), YAML loading, `log_event` and the FastAPI request/JSON envelope: these are I/O. The callback arrives as an already-decoded `(data, chat)` pair. A missing `callback_query` or a missing chat id is not modelled.
- `schedule_daily_reminders`, the scheduler jobs and `__main__`: these only register triggers and start the process. Only the `hour, minute` reading of line 200 is modelled, as the partner of the HH:MM rendering.
- Clock and ids: the program reads the clock separately in each helper. The model uses one moment per operation. `uuid4` is replaced by a supply of fresh ids. The local date `today` and the weekly window ends are parameters, not computed from the epoch.
- Time zones: a zone is a fixed UTC offset. Daylight-saving transitions of `ZoneInfo` are not modelled. The program computes the deadline and the snooze time as `now + timedelta(...)` on a zone-aware datetime, which is wall-clock arithmetic. Near a daylight-saving shift the real `timeout_at - created_at` can therefore differ from `timeout_minutes*60` seconds, and the snooze time from `snooze_minutes` after now.
- Timestamps: the program truncates fractional seconds with `int(...)`. The model takes whole epoch seconds and an integer `timeout_minutes`, so the deadline is exactly `created_at + timeout_minutes*60`. `snooze_minutes` is also taken as an integer, although the program passes whatever the configuration holds to `timedelta(minutes=...)`, which accepts a float.
- `update_task_status` accepts any text. The program only passes `done`, `skip` and `snoozed`, so the model takes a `Status`.
- `Config.slots` stands for the `SLOT_INDEX` table that `Slots.SlotIndex` builds. The model does not require it to be built that way: the operations only look a slot up by id, and none of their promises depends on the `Slots.Indexed` invariant that `Slots.SlotIndex` guarantees.
- The `meta` column of `events` is always NULL and is not modelled. The event's user id is always absent.
- ClockText.ParseHhMm: accepts only runs of ASCII digits. Python's `int` also accepts surrounding spaces, a sign, underscores and other Unicode digits. Hour and minute ranges are checked by the scheduler, which is not modelled.
- Concurrency: the race between a sweep and a late press is modelled as two atomic steps in either order (see `Scenarios.LatePressOverwritesTimeout`).
- Acting on a task id that does not exist still logs an event in the code. The model keeps that behaviour (`Webhook.PressSnoozeMissingTask`).
- In the code, a snoozed reminder's task gets today's date even when `now + snooze_minutes` falls on the next day. The model keeps that.
- The weekly window runs from the date seven days before now to today, inclusive: eight calendar dates. The model takes both ends as parameters.
