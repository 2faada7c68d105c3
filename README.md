# Project tracker chat bot: store, handlers and keyboards

A Telegram bot (aiogram 3) that lets users create projects, list them,
delete them, set their deadlines and choose the hours before a deadline at
which they want a reminder. This Dafny project models its core. The core has
three parts.

**The PostgreSQL store.** This is class `Database` in db.py. It has five
tables: `projects`, `project_members`, `users`, `notifications_settings` and
`invites`. Module `Db` keeps them as one `Tables` value. Each SQL statement
is a transition function on `Tables` (`AfterCreate`, `AfterDelete`,
`AfterUpdateSettings`, …). The rules that govern them are stated and proved
on those functions:

- mutation by the owner only;
- cascade of member rows;
- idempotent member insert;
- settings upsert where None keeps the stored column;
- hour-list validation before any write;
- invite flags.

Class `Db.Database` holds the tables as fields. Each of its methods
performs its statement on those fields and is proved to leave exactly what
the matching function says. The reminder query `get_projects_near_deadline`
is the function `Db.NearDeadline(t, now)`, modelled as written. Timestamps
are whole seconds and `NOW()` is a parameter.

**The conversation handlers.** These are two routers over aiogram's
per-chat FSM context. The context is `Fsm.Session`: a state plus a
dictionary. The dictionary is keyed by `project_id`, `project_msg_<id>` and
`project_title_<id>`.

- handlers.py is the router the bot runs with. It is module `Handlers`.
- handlers_actions.py and handlers_commands.py together build a second
  router. They are modules `HandlersActions` and `HandlersCommands`.
  main.py (lines 9 and 51-53) includes only the first router. The second
  router's own store (handlers_actions.py:18) is never connected, so on its
  own every store call there would fail; the model gives it a connected
  store, as main.py gives the first router.

Each handler is a method over the store and the session. Its contract gives
the new store as a `Db` transition and the new session in full. Each router's
dispatch order is a function (`RouteMessage`, `RouteCallback`), so it can be
shown which handler a given button reaches.

**The keyboards.** These are in keyboards.py and modelled by module
`Keyboards`. Inline buttons carry `f"{prefix}{id}"`, and the handlers read
the id back with `int(data.split("_")[-1])`. Both halves are modelled over
the Python built-ins in module `Text` (`str(int)`, `int(str)`, `strip`,
`lower`, `split("_")[-1]`), and the round trip is proved for every integer.
The hour keyboard's rows are a chunking function whose rows, put back
together, are the hour list.

The second router behaves differently from what its code suggests at first
reading. handlers_actions.py imports only `get_main_kb` from keyboards.py.
So every use there of these names raises NameError:

- `get_cancel_kb`;
- `get_project_actions_kb`;
- `show_notifications`;
- `select_reminder_intervals`.

For `get_cancel_kb`, `show_notifications` and `select_reminder_intervals`
the handler's outer `except` branch then clears the session. The one use of
`get_project_actions_kb` (handlers_actions.py:175) sits inside an inner
`try` whose `except` (handlers_actions.py:178) only logs, so the deadline
handler goes on and clears the session at handlers_actions.py:188 as usual.
The model follows the code on this point:

- an empty or too long title clears the session in that router;
- a reminder toggle always ends with the session cleared;
- "Сохранить" always ends with the session cleared.

In handlers.py, by contrast, an invalid title keeps the session waiting for a
title.

No code here schedules reminders or exchanges invitations: nothing calls
`get_projects_near_deadline`, `set_unikey` or `check_unikey`. Those store
operations are modelled on their own.

## Model

| member | source | states |
|---|---|---|
| `Db.AfterCreate` | db.py:62-71 | one new project under a fresh serial id, owned by the creator, with no deadline and no reminder stamp; every other row unchanged; consistency kept |
| `Db.AfterDelete` | db.py:95-114 | refused with nothing changed unless the caller created the project; otherwise exactly that project and exactly its member rows are gone, nothing else changes |
| `Db.AfterAddMember` | db.py:122-141 | refused unless the caller created the project (checked first) and the invitee is a registered user; otherwise the pair is present and no other row changes |
| `Db.AddMemberIdempotent` | db.py:136-139 | adding the same member twice leaves the same tables as adding it once (ON CONFLICT DO NOTHING) |
| `Db.AfterSetDeadline` | db.py:149-164 | refused unless the caller created the project; otherwise only that project's deadline changes, to the new one |
| `Db.Upserted` | db.py:204-216 | a new settings row takes the arguments as given; on an existing row a None argument keeps the stored column and any other replaces it |
| `Db.AfterUpdateSettings` | db.py:192-218 | an hour list that is given but empty or holds a non-positive hour leaves the tables unchanged; otherwise the user's row becomes the upsert and no other user's row changes |
| `Db.AfterSetLastNotification` | db.py:260-263 | stamps only that project's `last_notification_sent`; an unknown project changes nothing |
| `Db.AfterSetUnikey` | db.py:270-276 | inserts the key or overwrites both of its flags, whatever they were |
| `Db.SetUnikeyQueries` | db.py:286-325 | after `set_unikey`, `unikey_isactive` answers the new `active` flag, `check_unikey` answers `active and answer`, and every other key answers as before |
| `Db.AfterAddUser` | handlers.py:39-44 | `/start` registers the sender; registering twice changes nothing |
| `Db.UserProjects` | db.py:79-87 | exactly the projects the user created, each once, with their stored rows |
| `Db.OwnedIds` | db.py:81-83 | an id is selected iff the user created that project |
| `Db.ProjectRowsIn` | db.py:81-83 | one stored row per listed id, in the listing's order |
| `Db.OwnedRows` | db.py:79-87 | rows for distinct owned ids that include every owned id are exactly the user's projects, each once |
| `Db.Rows` | db.py:229-247 | one row per selected project (SELECT DISTINCT), each carrying its creator's hour list, in ascending deadline order |
| `Db.RowsIn` | db.py:229-236 | the joined row of each listed project, in the listing's order |
| `Db.RowsInSorted` | db.py:229-247 | the joined rows of the deadline-ordered listing cover the selection, each once, by ascending deadline |
| `Db.NearDeadline` | db.py:227-256 | a project is listed iff its deadline is in [now, now+24h], its creator's reminders are on, and some hour of the list passes the WHERE clause as written; each once, by ascending deadline, with a valid hour list |
| `Db.ListedAsWrittenIds` | db.py:236-247 | an id is selected iff the project passes the WHERE clause as written for some hour |
| `Db.RowHoursValid` | db.py:233-236 | a joined row carries its creator's stored hour list, which is valid |
| `Db.AsWrittenRepeats` | db.py:241-246 | as written, a project stamped at a poll is listed again at every later poll while the boundary that made it due is still ahead |
| `Db.AsWrittenRepeatExample` | db.py:241-246 | concrete case: deadline 5 h ahead, hours [24, 6, 1]; listed at time 0, stamped, listed again 30 minutes later |
| `Db.DueReminders` | db.py:227-256 | the corrected query: the same join, distinctness and order, with a boundary that must already have been reached and lie after the last stamp |
| `Db.ListedIntendedIds` | db.py:236-247 | an id is selected iff the project passes the corrected test for some hour |
| `Db.IntendedNoRepeat` | db.py:241-246 | with the corrected test, a stamped project is not listed again until one of its boundaries falls after the stamp |
| `Db.IntendedExample` | db.py:241-246 | the same example under the corrected test: due at time 0, not due 30 minutes after the stamp, due again once the 1-hour boundary is reached |
| `Db.Database.constructor` | db.py:11-13 | an empty, consistent store |
| `Db.Database.UserExists` | db.py:52-58 | true iff the user is registered |
| `Db.Database.AddUser` | handlers.py:39-44 | the `users` insert, as `AfterAddUser` |
| `Db.Database.CreateProject` | db.py:62-75 | returns the fresh id, which was not in use, and leaves the tables as `AfterCreate` |
| `Db.Database.GetUserProjects` | db.py:79-91 | returns `UserProjects`: only projects the user owns |
| `Db.Database.DeleteProject` | db.py:95-118 | returns whether the caller owned the project; the member rows go before the project row, ending as `AfterDelete` |
| `Db.Database.AddMember` | db.py:122-145 | returns whether the caller owns the project and the invitee exists; ends as `AfterAddMember` |
| `Db.Database.SetDeadline` | db.py:149-168 | returns whether the caller owns the project; ends as `AfterSetDeadline` |
| `Db.Database.GetNotificationSettings` | db.py:172-188 | the user's row, None when there is none; a stored hour list is always valid |
| `Db.Database.UpdateNotificationSettings` | db.py:192-223 | returns false exactly where the source raises ValueError, with nothing written; ends as `AfterUpdateSettings` |
| `Db.Database.GetProjectsNearDeadline` | db.py:227-256 | returns `NearDeadline` for the given `NOW()` |
| `Db.Database.SetLastNotification` | db.py:260-266 | ends as `AfterSetLastNotification` |
| `Db.Database.SetUnikey` | db.py:270-282 | ends as `AfterSetUnikey` |
| `Db.Database.UnikeyIsActive` | db.py:286-305 | true iff the key exists and is active |
| `Db.Database.CheckUnikey` | db.py:309-329 | true iff the key exists, is active and is answered |
| `Ordering.FirstExists` | db.py:247 | every non-empty set of keyed rows has a first one in (key, id) order |
| `Ordering.SortedByKey` | db.py:247 | each id of the set exactly once, in ascending key order |
| `Ordering.PrependFirst` | db.py:247 | the first id in front of a sorted listing of the rest lists the whole set once each, sorted |
| `Db.IdKey` | db.py:79-87 | every listed id is its own sort key |
| `Text.Strip` | handlers_actions.py:41 | the result is empty or starts and ends with a non-space character |
| `Text.StripSlice` | handlers_actions.py:41 | the result is the slice of the text left once the whitespace at both ends is gone: everything before and after it is whitespace |
| `Text.StripKeeps` | handlers_actions.py:41 | a text with no whitespace at its ends is unchanged |
| `Text.IntToString` | keyboards.py:25 | `str(i)` is non-empty, has no underscore and no whitespace at its ends |
| `Text.DigitsRoundTrip` | handlers_commands.py:85 | reading back the decimal digits of n gives n |
| `Text.IntRoundTrip` | handlers_commands.py:85 | `int(str(i)) == i` for every integer |
| `Text.IntToStringInjective` | handlers_commands.py:68-71 | distinct integers have distinct decimal strings |
| `Text.LastSegment` | handlers_commands.py:85 | `split("_")[-1]` is the underscore-free suffix after the last underscore |
| `Text.LastSegmentOfSuffix` | handlers_commands.py:85 | after a prefix ending in `_`, the last segment of `prefix + q` is the underscore-free `q` |
| `Fsm.KeyTextInjective` | handlers_commands.py:68-71 | the keys `project_id`, `project_msg_<id>` and `project_title_<id>` never share a string |
| `Fsm.SelectsProject` | handlers_actions.py:75-78 | after `project_id` is set to a nonzero id, the handlers read that id back |
| `Fsm.Session.Clear` | handlers.py:155 | `state.clear()` forgets the state and all the data |
| `Fsm.Session.SetState` | handlers.py:132 | `state.set_state` changes the state and keeps the data |
| `Fsm.Session.UpdateData` | handlers_commands.py:68-71 | `state.update_data` sets the given keys and keeps the others |
| `Fsm.SelectProject` | handlers_commands.py:86-92 | `update_data(project_id=…)` then `set_state`: the id is stored under `project_id`, the other keys are kept, and the state is the given one |
| `Keyboards.EncodeDecode` | keyboards.py:25 | for every id and every prefix ending in `_`, `int(f"{prefix}{id}".split("_")[-1]) == id`, and the data starts with the prefix |
| `Keyboards.ProjectActionsKb` | keyboards.py:20-41 | three one-button rows with data `delete_project_{id}`, `add_member_{id}` and `set_deadline_{id}`, in that order |
| `Keyboards.ProjectActionsKbDecodes` | keyboards.py:20-41 | each of those buttons starts with its prefix and decodes back to the project id |
| `Keyboards.ActionButton` | keyboards.py:54-57 | a button whose data starts with the prefix and decodes to the id |
| `Keyboards.ConfirmDeletionKb` | keyboards.py:51-66 | confirm (`confirm_delete_{id}`, decoding to the id), then `cancel_deletion` |
| `Keyboards.Chunks` | keyboards.py:82-90 | rows of at most n items, all full but the last, whose concatenation is the input |
| `Keyboards.HourButton` | keyboards.py:84-87 | data `reminder_toggle_{h}`, which decodes back to h |
| `Keyboards.HourButtons` | keyboards.py:83-89 | one hour button per hour, in order |
| `Keyboards.ReminderKb` | keyboards.py:78-96 | hour rows of at most three buttons that together are the buttons for 1, 2, 6, 12, 24 in order, then one `reminder_save` row |
| `Keyboards.ReminderKbDecodes` | keyboards.py:79-95 | the hour buttons decode, in order, to exactly 1, 2, 6, 12, 24 |
| `HandlersActions.CheckTitle` | handlers_actions.py:41-57 | cancelled iff the stripped text lowers to "отмена"; otherwise empty iff the stripped text is empty and too long iff it exceeds 200; an accepted title is the stripped text, 1 to 200 characters, not the cancel word |
| `HandlersActions.AcceptedTitleStable` | handlers_actions.py:41 | an accepted title, sent again, is accepted unchanged |
| `HandlersActions.CancelsWhen` | handlers_actions.py:41-46 | a text without whitespace at its ends that lowers to "отмена" cancels |
| `HandlersActions.AcceptedWhen` | handlers_actions.py:41-57 | a text without whitespace at its ends, at most 200 characters long, that does not lower to "отмена" is accepted unchanged |
| `HandlersActions.CancelButtonCancels` | handlers_actions.py:43 | the cancel keyboard's "Отмена" cancels |
| `HandlersActions.CapitalsCancel` | handlers_actions.py:43 | the capitals "ОТМЕНА" cancel too |
| `HandlersActions.CreateProjectFinish` | handlers_actions.py:37-68 | only an accepted title creates a project, exactly one, owned by the chat; the session ends cleared on every path |
| `HandlersActions.ConfirmDeleteProject` | handlers_actions.py:72-115 | without a remembered project nothing changes at all; with one, the result is whether the caller owned it, the store is `AfterDelete` for the caller, and the session is cleared whatever the outcome |
| `HandlersActions.CancelDeletion` | handlers_actions.py:119-129 | the session is cleared |
| `HandlersActions.ProcessDeadlineInput` | handlers_actions.py:133-193 | a date that does not parse changes nothing; without a remembered project the session is cleared and nothing is written; otherwise the deadline is set with the chat as creator and the session is cleared |
| `HandlersActions.SaveReminderSettings` | handlers_actions.py:212-220 | the session ends cleared |
| `HandlersActions.FirstIndex` | handlers_actions.py:232-233 | the position of the first occurrence of h |
| `HandlersActions.RemoveFirst` | handlers_actions.py:233 | `list.remove`: the first occurrence of h is cut out and the hours before and after it keep their order; exactly one h fewer |
| `HandlersActions.Toggled` | handlers_actions.py:232-235 | a present hour loses its first occurrence, the other hours keeping their order; an absent hour is appended at the end |
| `HandlersActions.RemoveFirstKeepsOrder` | handlers_actions.py:233 | `[h, x, h].remove(h)` is `[x, h]`: the first h goes, not the last |
| `HandlersActions.RemoveMiddle` | handlers_actions.py:233 | removing an hour that stands only between two others leaves those two in order |
| `HandlersActions.ToggleKeepsOrder` | handlers_actions.py:232-233 | toggling the middle hour of `[x, h, y]` leaves `[x, y]` |
| `HandlersActions.ToggleFlips` | handlers_actions.py:232-235 | on a list holding h at most once, toggling flips whether h is there, and toggling twice gives back the same hours |
| `HandlersActions.ToggleEmpties` | handlers_actions.py:232-235 | a toggle empties the list exactly when h was its only hour |
| `HandlersActions.ToggledValid` | handlers_actions.py:232-240 | toggling a positive hour keeps a valid list valid unless it empties it |
| `HandlersActions.AfterToggle` | handlers_actions.py:227-240 | a toggle writes only through the validated settings update, so the store stays consistent |
| `HandlersActions.ToggleReminderHour` | handlers_actions.py:224-248 | the store ends as `AfterToggle` and the session ends cleared |
| `HandlersActions.ToggleOutcome` | handlers_actions.py:228-240 | for a decoded positive hour: a list of just that hour is left unchanged (the empty list is rejected); otherwise the user's row is enabled with the toggled list and no other row changes |
| `HandlersCommands.CmdStart` | handlers_commands.py:8-22 | registers the chat as a user |
| `HandlersCommands.CreateProjectStart` | handlers_commands.py:31-35 | waits for a title and keeps the data |
| `HandlersCommands.RecordedAt` | handlers_commands.py:57-71 | after listing, every listed project's message id and title are under its own keys |
| `HandlersCommands.RecordedKeeps` | handlers_commands.py:68-71 | listing changes no key other than the listed projects' message and title keys |
| `HandlersCommands.SelectionSurvivesListing` | handlers_commands.py:68-71 | the remembered `project_id` survives a listing |
| `HandlersCommands.MyProjects` | handlers_commands.py:46-78 | lists the chat's projects; the session data is the old data plus both keys of each listed project, and nothing when there are none |
| `HandlersCommands.RecordListing` | handlers_commands.py:57-71 | the loop over the listed projects stores both keys of each, in listing order, and keeps the state |
| `HandlersCommands.DeleteProjectStart` | handlers_commands.py:82-98 | remembers the decoded id and waits for the confirmation; data that does not decode clears the session |
| `HandlersCommands.StartSetDeadline` | handlers_commands.py:102-120 | remembers the decoded id and waits for a date; data that does not decode clears the session |
| `HandlersCommands.ActionButtonsSelect` | handlers_commands.py:85-86 | pressing delete or set-deadline under a listed project selects exactly that project |
| `HandlersCommands.WithDefaultSettings` | handlers_commands.py:153-156 | a user without a settings row gets (on, [24, 6, 1]); an existing row is left alone; no other row changes |
| `HandlersCommands.DefaultSettingsOnce` | handlers_commands.py:154-155 | the lazy default is written at most once |
| `HandlersCommands.LoadSettings` | handlers_commands.py:153-156 | the shown settings are the user's row after the lazy default |
| `HandlersCommands.ShowNotifications` | handlers_commands.py:148-166 | shows the stored settings, or the default that it has just stored |
| `HandlersCommands.SelectReminderIntervals` | handlers_commands.py:208-234 | shows the stored hour list, or [24, 6, 1] after storing the default |
| `HandlersCommands.EnableNotifications` | handlers_commands.py:170-180 | turns reminders on through the upsert, without an hour list |
| `HandlersCommands.DisableNotifications` | handlers_commands.py:183-193 | turns reminders off through the upsert, without an hour list |
| `HandlersCommands.SwitchKeepsHours` | handlers_commands.py:174 | only the flag changes: the stored hours are kept, and a new row has a NULL hour list |
| `HandlersCommands.SwitchFirstLocksHours` | handlers_commands.py:170-180 | a user whose first settings action is enable or disable gets a NULL hour list: the menus add no default and no toggle writes again |
| `HandlersCommands.BackToMain` | handlers_commands.py:196-205 | the session is cleared |
| `HandlersCommands.RouteMessage` | handlers_commands.py:3-208 | in the title or date state every message, text or not, goes to that state's handler; otherwise a message reaches `cmd_start` iff the `Command("start")` filter passes on its text or caption, and a message without text reaches nothing else |
| `HandlersCommands.ButtonHandlerNames` | handlers_commands.py:31-208 | each reply-keyboard text selects the handler registered for it |
| `HandlersCommands.PlainTextRoute` | handlers_commands.py:8-208 | outside the input states a text that opens with neither "/" nor whitespace reaches the handler registered for that exact text |
| `HandlersCommands.ProjectRowsRoutes` | handlers_commands.py:31-46 | "Создать проект" and "Мои проекты" reach project creation and the list outside the input states |
| `HandlersCommands.SwitchRowRoutes` | handlers_commands.py:170-183 | "Включить уведомления" and "Отключить уведомления" reach enable and disable outside the input states |
| `HandlersCommands.IntervalRowRoutes` | handlers_commands.py:196-208 | "Выбрать интервалы" and "Назад" reach the interval menu and back outside the input states |
| `HandlersCommands.RouteCallback` | handlers_commands.py:3-237 | data reaches each callback handler exactly when its own filter holds (prefix or exact data), so registration order decides nothing |
| `HandlersCommands.CallbackFiltersDisjoint` | handlers_actions.py:72-224 | no data passes two of the seven callback filters of this router |
| `Keyboards.NotCommand` | handlers_commands.py:8 | a text whose first character is neither "/" nor whitespace fails the `/start` test |
| `Keyboards.NotStartText` | handlers_commands.py:8 | a message whose text opens with neither "/" nor whitespace fails the `Command("start")` filter |
| `Keyboards.CommandText` | handlers.py:35 | the filter reads the text when it is non-empty, else a non-empty caption, else nothing |
| `Keyboards.LeadingWord` | handlers.py:35 | the leading run of non-whitespace characters: a prefix with no whitespace, ended by whitespace or the end of the text |
| `Keyboards.StartCommandWord` | handlers.py:35 | the `/start` test holds iff the first whitespace-separated word is `/start` or `/start@` followed by a mention |
| `Keyboards.StartWord` | handlers.py:35 | the leading word is `/start` or a `/start@` mention iff the text opens with `/start` followed by nothing, whitespace or `@` |
| `Keyboards.LeadingWordCovers` | handlers.py:35 | a whitespace-free prefix lies inside the leading word |
| `Keyboards.LeadingWordStops` | handlers.py:35 | the leading word ends at the first whitespace |
| `Keyboards.StartTextFilter` | handlers.py:35 | on a text with no leading whitespace the filter checks its opening characters, and a caption is read like a text |
| `Keyboards.StartAlone` | handlers.py:35 | `/start` passes as a text and as the caption of a message without text |
| `Keyboards.StartWithArguments` | handlers.py:35 | `/start` followed by a line break and arguments passes |
| `Keyboards.StartSkipsSpace` | handlers.py:35 | leading whitespace does not change the verdict |
| `Keyboards.StartAfterSpace` | handlers.py:35 | `" /start"` passes |
| `Keyboards.StartedIsNoStart` | handlers.py:35 | `/started` is another command and fails |
| `Keyboards.MainKb` | keyboards.py:10-16 | three one-button rows with distinct texts, none of which passes the `/start` test |
| `Keyboards.CancelKb` | keyboards.py:45-47 | one button, no command, with no whitespace at its ends |
| `Keyboards.NotificationsKb` | keyboards.py:70-74 | two rows of two buttons with distinct texts, none of which passes the `/start` test |
| `Keyboards.DecodeId` | handlers.py:125 | `int(data.split("_")[-1])`: the number read from the underscore-free text after the last underscore, or from the whole data when it has none |
| `Keyboards.LastSegmentAt` | handlers.py:125 | the text after an underscore (or the start) that holds no further underscore is the last segment |
| `Fsm.ProjectIdOf` | handlers.py:141-143 | a remembered project exists iff `project_id` holds a nonzero integer, and then it is that integer |
| `HandlersCommands.KeyboardButtonsRoute` | handlers_commands.py:31-208 | outside the input states each main and notifications button reaches its own handler; while a title is awaited, "Мои проекты" is read as a title |
| `HandlersCommands.MainKbRoutes` | handlers_commands.py:31-148 | the main keyboard's three texts reach project creation, the list and the notifications menu outside the input states |
| `HandlersCommands.NotificationsKbRoutes` | handlers_commands.py:170-208 | the notifications keyboard's four texts reach enable, disable, the interval menu and back outside the input states |
| `HandlersCommands.ActionButtonsRoute` | keyboards.py:20-41 | the delete and set-deadline buttons reach their handlers; "Добавить участника" reaches none |
| `HandlersCommands.NoOtherPrefix` | handlers_actions.py:72-224 | data with one of the keyboards' prefixes matches no filter registered before its own |
| `HandlersCommands.ConfirmButtonsRoute` | keyboards.py:51-66 | the deletion keyboard's buttons reach the confirmation and the cancellation |
| `HandlersCommands.ConfirmDataRoutes` | handlers_actions.py:71 | data starting with `confirm_delete_` reaches the deletion |
| `HandlersCommands.CancelDataRoutes` | handlers_actions.py:119 | `cancel_deletion` reaches the cancellation |
| `HandlersCommands.HourButtonRoute` | handlers_actions.py:224 | every hour button reaches the toggle |
| `HandlersCommands.SaveButtonRoute` | handlers_actions.py:212 | "Сохранить" reaches the first `reminder_save` handler |
| `Handlers.CmdStart` | handlers.py:35-52 | registers the sender as a user |
| `Handlers.CreateProjectStart` | handlers.py:55-63 | waits for a title and keeps the data |
| `Handlers.CreateProjectFinish` | handlers.py:67-95 | a cancel clears the session; an empty or too long title keeps the session waiting; only an accepted title creates a project, exactly one, owned by the sender, then clears; a message without text changes nothing |
| `Handlers.MyProjects` | handlers.py:98-117 | shows the rows of `UserProjects`: exactly the sender's projects, each once, each with its stored title and deadline; stores nothing |
| `Handlers.ConfirmDeleteProject` | handlers.py:122-132 | remembers the decoded id and waits for the confirmation; data that does not decode changes nothing |
| `Handlers.DeleteProject` | handlers.py:137-155 | without a remembered project nothing changes; with one, the result is whether the sender owned it, the store is `AfterDelete`, and the session is cleared whatever the outcome |
| `Handlers.CancelDeletion` | handlers.py:159-162 | the session is cleared |
| `Handlers.RouteMessage` | handlers.py:35-98 | a message reaches `cmd_start` iff the `Command("start")` filter passes on its text or caption; it is read as a title iff a title is awaited, the filter fails and its text is not "Создать проект" |
| `Handlers.RouteCallback` | handlers.py:122-160 | data reaches `confirm_delete_project` iff it starts with `delete_project_`, `delete_project` iff it starts with `confirm_delete_`, and `cancel_deletion` iff it is `cancel_deletion` |
| `Handlers.DeleteFiltersDisjoint` | handlers.py:122-159 | no data passes two of the three deletion filters |
| `Handlers.StartBeatsTitle` | handlers.py:35-68 | while a title is awaited, "/start\nabc" and a message captioned "/start" reach `cmd_start`, not the title handler |
| `Handlers.AskDeleteRoutes` | handlers.py:122 | data starting with `delete_project_` reaches `confirm_delete_project` |
| `Handlers.ConfirmRoutes` | handlers.py:137 | data starting with `confirm_delete_` reaches `delete_project` |
| `Handlers.HandleMessage` | handlers.py:35-117 | a message has the effect of the handler `RouteMessage` picks, and none when no handler matches |
| `Handlers.HandleCallback` | handlers.py:121-162 | a callback has the effect of the handler its data selects, and none when no handler matches |
| `Handlers.MenuTextCapturedAsTitle` | handlers.py:67-98 | "Мои проекты" sent while a title is awaited creates a project of that name |
| `Handlers.DeleteThroughButtons` | handlers.py:122-155 | pressing "Удалить проект" under a project, then "Да, удалить", deletes exactly that project when the sender created it, answers "no rights" and changes no row when the project is another user's or already gone, and clears the session either way |

## Left out

- Connection pooling, `execute`/`fetch` and store failures (db.py:11-48) are not modelled. Every statement succeeds. The `except` paths that log and re-raise, and the `return []`/`return None`/`return False` fallbacks of the reading methods, are therefore not modelled.
- The columns `created_at`, `username` and `full_name` are not modelled. No modelled rule reads them.
- `Db.UserProjects`: the SQL has no ORDER BY, so the row order is the database's choice. The model lists the rows by ascending id and promises only which rows appear, each once.
- `Text.Lower` lowers only the Latin A–Z and the Cyrillic capitals U+0400–U+042F, not all of Unicode. That is enough for "отмена", which is the only text compared after lowering.
- `Text.ParseInt` accepts ASCII digits only. Python's `int` also takes other Unicode digits and underscores between digits. The decoded segment never holds an underscore, and the keyboards emit only ASCII digits.
- Date parsing and formatting (`datetime.strptime`/`strftime`, handlers_actions.py:138) are not modelled. The parsed deadline is a parameter, None when parsing fails.
- Time zones are not modelled. Timestamps are plain seconds.
- Message sending, editing and deleting, `callback.answer` and markup objects are not modelled. The id of the message `my_projects` sends for its i-th project is the parameter `sent(i)`.
- `check_notifications` (handlers_commands.py:123-144) is not modelled. It never binds `db` (every other handler does `db = router.db`), so the query at handlers_commands.py:128 raises NameError before it runs; its `except` branch then raises again on the undefined `state` at handlers_commands.py:144, so neither the store nor the session changes. Its route is kept as `CheckNotifications`.
- `set_reminder_hours` (handlers_actions.py:196-209) is not modelled. It calls undefined names and always fails. No keyboard emits `set_hours_` data, and its route is kept as `SetHours`.
- The `add_member_` button has no handler, and the AddMember states are never entered. `Db.Database.AddMember` is modelled, but no handler reaches it.
- No code polls `get_projects_near_deadline` or stamps projects with `set_last_notification`. No code issues or answers invitations with the invite keys. The store operations are modelled without a scheduler or a handshake.
- `Keyboards.IsStartCommand` accepts `/start@` with any mention: the `Command("start")` filter's check that the mention names this bot is not modelled, because the bot's name is not in the code. The rest of the filter is modelled: it reads the text or else the caption, skips leading whitespace and compares the first whitespace-separated word.
- `HandlersCommands.SwitchKeepsHours` and `HandlersCommands.SwitchFirstLocksHours` assume that the columns `enable_reminders` and `reminder_hours` of `notifications_settings` accept NULL. No schema is in the source. The upsert at db.py:204-216 inserts an explicit NULL for an argument that is None. Under a NOT NULL column, enable or disable for a user without a settings row would raise instead.
- Concurrency between handler tasks is not modelled. Each handler runs to completion before the next begins.
- handlers.py's log lines at handlers.py:49, :60 and :92 name an undefined `user_id`. They raise only after every modelled effect, so the model ends the handler at that point.
- The sending of replies that fail (for example `callback.message.answer` after an error) is not modelled. Only the session and store effects are.
- models.py, main.py, bot.py and logger.py are not part of this model: they hold process setup and record classes that db.py does not use.

## Findings

| source | as written | input that shows it | evidently intended | confidence | as-written member | corrected member |
|---|---|---|---|---|---|---|
| db.py:246 | a reminder hour `rh` qualifies while its boundary `deadline - rh hours` is still at or after `NOW()`, and the project's last stamp is before that boundary | project 1 with a deadline 5 h after time 0 and owner hours [24, 6, 1]: listed at time 0, stamped with time 0 by `set_last_notification`, and listed again at time 1800 (the 1-hour boundary lies ahead and after the stamp), so it is re-sent at every poll until 1 h before the deadline | a reminder is due once its boundary has been reached (`boundary <= NOW()`) and no reminder was sent since (`last < boundary`), so a stamp suppresses repeats until the next boundary | not executed | `Db.AsWrittenRepeatExample` | `Db.DueReminders` |
