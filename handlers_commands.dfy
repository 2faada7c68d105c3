/**
 * The command and keyboard handlers of the second router (handlers_commands.py)
 * and the order in which that router tries its handlers. The router is the
 * one created in handlers_actions.py: importing that module registers its
 * handlers before any of these.
 */
module HandlersCommands {
  import opened Wrappers
  import opened Text
  import opened Db
  import opened Fsm
  import opened Keyboards
  import opened HandlersActions

  /** `cmd_start`: registers the chat as a user; registering twice changes nothing. */
  method CmdStart(db: Database, chat: int)
    requires db.Valid()
    modifies db
    ensures db.Valid() && db.T() == AfterAddUser(old(db.T()), chat)
  {
    db.AddUser(chat);
  }

  /** `create_project_start`: the next message is read as a title. */
  method CreateProjectStart(session: Session)
    modifies session
    ensures session.state == EnterTitle && session.data == old(session.data)
  {
    session.SetState(EnterTitle);
  }

  /** The two keys `my_projects` records for one listed project. */
  function ProjectEntries(row: ProjectRow, msgId: int): map<Key, Value>
  {
    map[MsgKey(row.id) := Int(msgId), TitleKey(row.id) := Str(row.project.title)]
  }

  /**
   * The session data after `my_projects` has listed the first `n` rows, the
   * `i`-th listing having been sent as message `sent(i)`.
   */
  function Recorded(data: map<Key, Value>, rows: seq<ProjectRow>, sent: nat -> int, n: nat): map<Key, Value>
    requires n <= |rows|
  {
    if n == 0 then data
    else Recorded(data, rows, sent, n - 1) + ProjectEntries(rows[n - 1], sent(n - 1))
  }

  /**
   * After listing, every listed project's message id and title can be looked
   * up under its own keys, however many projects there are.
   */
  lemma {:induction false} RecordedAt(data: map<Key, Value>, rows: seq<ProjectRow>, sent: nat -> int, n: nat, k: nat)
    requires k < n <= |rows|
    requires forall i, j :: 0 <= i < j < |rows| ==> rows[i].id != rows[j].id
    ensures Get(Recorded(data, rows, sent, n), MsgKey(rows[k].id)) == Int(sent(k))
    ensures Get(Recorded(data, rows, sent, n), TitleKey(rows[k].id)) == Str(rows[k].project.title)
  {
    if k < n - 1 {
      RecordedAt(data, rows, sent, n - 1, k);
    }
  }

  /** Listing touches no key but the message and title keys: in particular the selected `project_id` survives it. */
  lemma {:induction false} RecordedKeeps(data: map<Key, Value>, rows: seq<ProjectRow>, sent: nat -> int, n: nat, key: Key)
    requires n <= |rows|
    requires forall i :: 0 <= i < n ==> key != MsgKey(rows[i].id) && key != TitleKey(rows[i].id)
    ensures Get(Recorded(data, rows, sent, n), key) == Get(data, key)
  {
    if n > 0 {
      RecordedKeeps(data, rows, sent, n - 1, key);
    }
  }

  lemma SelectionSurvivesListing(data: map<Key, Value>, rows: seq<ProjectRow>, sent: nat -> int)
    ensures ProjectIdOf(Recorded(data, rows, sent, |rows|)) == ProjectIdOf(data)
  {
    RecordedKeeps(data, rows, sent, |rows|, ProjectIdKey);
  }

  /**
   * `my_projects`: lists the chat's projects, one message each (message
   * `sent(i)` for the `i`-th), and records the message id and the title of
   * each under its keys. With no projects nothing is recorded.
   */
  method MyProjects(db: Database, session: Session, chat: int, sent: nat -> int) returns (shown: seq<ProjectRow>)
    modifies session
    ensures shown == UserProjects(db.T(), chat)
    ensures session.state == old(session.state)
    ensures session.data == Recorded(old(session.data), shown, sent, |shown|)
  {
    shown := db.GetUserProjects(chat);
    if |shown| == 0 {
      return;
    }
    RecordListing(session, shown, sent);
  }

  /** Stores the message id and title of every listed project, in listing order. */
  method RecordListing(session: Session, shown: seq<ProjectRow>, sent: nat -> int)
    modifies session
    ensures session.state == old(session.state)
    ensures session.data == Recorded(old(session.data), shown, sent, |shown|)
  {
    var i := 0;
    while i < |shown|
      invariant 0 <= i <= |shown|
      invariant session.state == old(session.state)
      invariant session.data == Recorded(old(session.data), shown, sent, i)
    {
      session.UpdateData(ProjectEntries(shown[i], sent(i)));
      i := i + 1;
    }
  }

  /**
   * `delete_project` (the `delete_project_` callback): remembers the project
   * the button names and waits for the confirmation. Data that does not
   * decode clears the session.
   */
  method DeleteProjectStart(session: Session, data: string)
    modifies session
    ensures DecodeId(data).None? ==> session.state == NoState && session.data == map[]
    ensures DecodeId(data).Some? ==>
      && session.state == DeleteConfirm
      && session.data == old(session.data)[ProjectIdKey := Int(DecodeId(data).value)]
  {
    var id := DecodeId(data);
    if id.None? {
      session.Clear();
      return;
    }
    SelectProject(session, id.value, DeleteConfirm);
  }

  /** `start_set_deadline` (the `set_deadline_` callback): the same, waiting for a date. */
  method StartSetDeadline(session: Session, data: string)
    modifies session
    ensures DecodeId(data).None? ==> session.state == NoState && session.data == map[]
    ensures DecodeId(data).Some? ==>
      && session.state == SetDeadlineInputDate
      && session.data == old(session.data)[ProjectIdKey := Int(DecodeId(data).value)]
  {
    var id := DecodeId(data);
    if id.None? {
      session.Clear();
      return;
    }
    SelectProject(session, id.value, SetDeadlineInputDate);
  }

  /**
   * Pressing "Удалить проект" or "Установить дедлайн" under a listed project
   * selects exactly that project: it is what the following confirmation or
   * date acts on.
   */
  lemma ActionButtonsSelect(t: Tables, id: int, data: map<Key, Value>)
    requires Consistent(t) && id in t.projects
    ensures var kb := ProjectActionsKb(id);
      && DecodeId(kb[0][0].data).Some?
      && ProjectIdOf(data[ProjectIdKey := Int(DecodeId(kb[0][0].data).value)]) == Some(id)
      && DecodeId(kb[2][0].data).Some?
      && ProjectIdOf(data[ProjectIdKey := Int(DecodeId(kb[2][0].data).value)]) == Some(id)
  {
    ProjectActionsKbDecodes(id);
    var kb: seq<seq<Button>> := ProjectActionsKb(id);
    assert DecodeId(kb[0][0].data) == Some(id) && DecodeId(kb[2][0].data) == Some(id);
    assert id >= 1;
    SelectsProject(data, id);
  }

  const DefaultHours: seq<int> := [24, 6, 1]

  /** The settings both menus fall back to: reminders on, 24, 6 and 1 hours before. */
  function DefaultSettings(): Settings
  {
    Settings(Some(true), Some(DefaultHours))
  }

  /**
   * The store after the lazy default of `show_notifications` and
   * `select_reminder_intervals`: a user without a row gets the default one;
   * an existing row, whatever it holds, is left alone.
   */
  function WithDefaultSettings(t: Tables, user: int): (r: Tables)
    requires Consistent(t)
    ensures Consistent(r)
    ensures SettingsOf(r, user) == Some(if SettingsOf(t, user).Some? then SettingsOf(t, user).value else DefaultSettings())
    ensures forall u :: u != user ==> SettingsOf(r, u) == SettingsOf(t, u)
    ensures r == t.(settings := r.settings)
  {
    if SettingsOf(t, user).Some? then t
    else
      assert ValidHours(DefaultHours);
      AfterUpdateSettings(t, user, Some(true), Some(DefaultHours))
  }

  /** The lazy default is applied at most once: a second visit to either menu writes nothing. */
  lemma DefaultSettingsOnce(t: Tables, user: int)
    requires Consistent(t)
    ensures WithDefaultSettings(WithDefaultSettings(t, user), user) == WithDefaultSettings(t, user)
  {
  }

  /** The settings the menus show, applying the lazy default first. */
  method LoadSettings(db: Database, user: int) returns (shown: Settings)
    requires db.Valid()
    modifies db
    ensures db.Valid()
    ensures db.T() == WithDefaultSettings(old(db.T()), user)
    ensures SettingsOf(db.T(), user) == Some(shown)
  {
    var settings := db.GetNotificationSettings(user);
    if settings.None? {
      var _ := db.UpdateNotificationSettings(user, Some(true), Some(DefaultHours));
      shown := DefaultSettings();
    } else {
      shown := settings.value;
    }
  }

  /** `show_notifications`: shows the chat's settings (the default for a first visit) over the notifications keyboard. */
  method ShowNotifications(db: Database, chat: int) returns (shown: Settings)
    requires db.Valid()
    modifies db
    ensures db.Valid()
    ensures db.T() == WithDefaultSettings(old(db.T()), chat)
    ensures SettingsOf(old(db.T()), chat).Some? ==> shown == SettingsOf(old(db.T()), chat).value
    ensures SettingsOf(old(db.T()), chat).None? ==> shown == DefaultSettings()
  {
    shown := LoadSettings(db, chat);
  }

  /** `select_reminder_intervals`: shows the chat's hour list (after the same lazy default) over the reminder keyboard. */
  method SelectReminderIntervals(db: Database, chat: int) returns (shown: Option<seq<int>>)
    requires db.Valid()
    modifies db
    ensures db.Valid()
    ensures db.T() == WithDefaultSettings(old(db.T()), chat)
    ensures SettingsOf(old(db.T()), chat).Some? ==> shown == SettingsOf(old(db.T()), chat).value.reminderHours
    ensures SettingsOf(old(db.T()), chat).None? ==> shown == Some(DefaultHours)
  {
    var settings := LoadSettings(db, chat);
    shown := settings.reminderHours;
  }

  /** `enable_notifications`: turns reminders on, keeping the stored hours. */
  method EnableNotifications(db: Database, chat: int)
    requires db.Valid()
    modifies db
    ensures db.Valid() && db.T() == AfterUpdateSettings(old(db.T()), chat, Some(true), None)
  {
    var _ := db.UpdateNotificationSettings(chat, Some(true), None);
  }

  /** `disable_notifications`: turns reminders off, keeping the stored hours. */
  method DisableNotifications(db: Database, chat: int)
    requires db.Valid()
    modifies db
    ensures db.Valid() && db.T() == AfterUpdateSettings(old(db.T()), chat, Some(false), None)
  {
    var _ := db.UpdateNotificationSettings(chat, Some(false), None);
  }

  /**
   * The enable flag alone changes: the hours are kept, and a user with no row
   * yet gets one whose hour list is NULL.
   */
  lemma SwitchKeepsHours(t: Tables, user: int, on: bool)
    requires Consistent(t)
    ensures var r := AfterUpdateSettings(t, user, Some(on), None);
      && SettingsOf(r, user).Some?
      && SettingsOf(r, user).value.enableReminders == Some(on)
      && SettingsOf(r, user).value.reminderHours ==
           (if SettingsOf(t, user).Some? then SettingsOf(t, user).value.reminderHours else None)
  {
  }

  /**
   * A user whose first settings action is "Включить уведомления" or
   * "Отключить уведомления" gets a row with a NULL hour list. The menus then
   * find a row and add no default, and no toggle ever writes again: each one
   * stops on `hour in None`.
   */
  lemma SwitchFirstLocksHours(t: Tables, user: int, on: bool, data: string)
    requires Consistent(t) && SettingsOf(t, user).None?
    ensures var r := AfterUpdateSettings(t, user, Some(on), None);
      && WithDefaultSettings(r, user) == r
      && AfterToggle(r, user, data) == r
  {
    var r := AfterUpdateSettings(t, user, Some(on), None);
    assert SettingsOf(r, user) == Some(Settings(Some(on), None));
    assert CurrentHours(r, user).None?;
  }

  /** `back_to_main`: back to the main keyboard with the session cleared. */
  method BackToMain(session: Session)
    modifies session
    ensures session.state == NoState && session.data == map[]
  {
    session.Clear();
  }

  // ---- dispatch ---------------------------------------------------------------

  /** The message handlers of this router, in registration order. */
  datatype MessageHandler =
    | TitleInput | DeadlineInput | Start | NewProject | ListProjects | CheckNotifications
    | NotificationMenu | Enable | Disable | Back | IntervalMenu | NoMessageHandler

  /**
   * The handler a message reaches: the first registered one whose filters all
   * pass. The two state handlers come first and take any message, text or not;
   * then `/start` is matched on the text, or on the caption of a message
   * without text; the others compare the text exactly.
   */
  function RouteMessage(state: State, text: Option<string>, caption: Option<string>): (h: MessageHandler)
    ensures state == EnterTitle ==> h == TitleInput
    ensures state == SetDeadlineInputDate ==> h == DeadlineInput
    ensures state != EnterTitle && state != SetDeadlineInputDate ==> (h == Start <==> StartFilter(text, caption))
    ensures text.None? && state != EnterTitle && state != SetDeadlineInputDate ==> h == Start || h == NoMessageHandler
  {
    if state == EnterTitle then TitleInput
    else if state == SetDeadlineInputDate then DeadlineInput
    else if StartFilter(text, caption) then Start
    else if text.None? then NoMessageHandler
    else ButtonHandler(text.value)
  }

  /** The handlers whose filter is an exact text: the reply-keyboard buttons. */
  function ButtonHandler(text: string): MessageHandler
  {
    if text == CreateProjectText then NewProject
    else if text == MyProjectsText then ListProjects
    else if text == "Проверить уведомления" then CheckNotifications
    else if text == NotificationSettingsText then NotificationMenu
    else if text == EnableText then Enable
    else if text == DisableText then Disable
    else if text == BackText then Back
    else if text == ChooseIntervalsText then IntervalMenu
    else NoMessageHandler
  }

  /** Each reply-keyboard button text selects the handler named after it. */
  lemma ButtonHandlerNames()
    ensures ButtonHandler(CreateProjectText) == NewProject
    ensures ButtonHandler(MyProjectsText) == ListProjects
    ensures ButtonHandler(NotificationSettingsText) == NotificationMenu
    ensures ButtonHandler(EnableText) == Enable
    ensures ButtonHandler(DisableText) == Disable
    ensures ButtonHandler(ChooseIntervalsText) == IntervalMenu
    ensures ButtonHandler(BackText) == Back
  {
    var texts := [CreateProjectText, MyProjectsText, "Проверить уведомления", NotificationSettingsText,
                  EnableText, DisableText, BackText, ChooseIntervalsText];
    assert |texts[0]| == 14 && texts[0][0] == 'С';
    assert |texts[1]| == 11;
    assert |texts[2]| == 21 && texts[2][0] == 'П';
    assert |texts[3]| == 21 && texts[3][0] == 'Н';
    assert |texts[4]| == 20;
    assert |texts[5]| == 21 && texts[5][0] == 'О';
    assert |texts[6]| == 5;
    assert |texts[7]| == 17;
  }

  /** Outside the input states a plain text that is no command reaches the button handler its text names. */
  lemma PlainTextRoute(state: State, text: string)
    requires state != EnterTitle && state != SetDeadlineInputDate
    requires text != [] && text[0] != '/' && !IsSpace(text[0])
    ensures RouteMessage(state, Some(text), None) == ButtonHandler(text)
  {
    NotStartText(text);
  }

  /**
   * Outside the two input states every button of the main and the
   * notifications keyboards reaches the handler named after it; inside them
   * even these buttons are read as a title or a date.
   */
  lemma KeyboardButtonsRoute(state: State)
    ensures state != EnterTitle && state != SetDeadlineInputDate ==>
      && RouteMessage(state, Some(MainKb()[0][0]), None) == NewProject
      && RouteMessage(state, Some(MainKb()[1][0]), None) == ListProjects
      && RouteMessage(state, Some(MainKb()[2][0]), None) == NotificationMenu
      && RouteMessage(state, Some(NotificationsKb()[0][0]), None) == Enable
      && RouteMessage(state, Some(NotificationsKb()[0][1]), None) == Disable
      && RouteMessage(state, Some(NotificationsKb()[1][0]), None) == IntervalMenu
      && RouteMessage(state, Some(NotificationsKb()[1][1]), None) == Back
    ensures state == EnterTitle ==> RouteMessage(state, Some(MainKb()[1][0]), None) == TitleInput
  {
    MainKbRoutes(state);
    NotificationsKbRoutes(state);
  }

  lemma MainKbRoutes(state: State)
    ensures state != EnterTitle && state != SetDeadlineInputDate ==>
      && RouteMessage(state, Some(CreateProjectText), None) == NewProject
      && RouteMessage(state, Some(MyProjectsText), None) == ListProjects
      && RouteMessage(state, Some(NotificationSettingsText), None) == NotificationMenu
    ensures state == EnterTitle ==> RouteMessage(state, Some(MyProjectsText), None) == TitleInput
  {
    if state != EnterTitle && state != SetDeadlineInputDate {
      ProjectRowsRoutes(state);
      PlainTextRoute(state, NotificationSettingsText);
      assert ButtonHandler(NotificationSettingsText) == NotificationMenu by {
        assert NotificationSettingsText[0] == 'Н' && |NotificationSettingsText| == 21;
      }
    }
  }

  /** The first two rows of the main keyboard: create a project and list the projects. */
  lemma ProjectRowsRoutes(state: State)
    requires state != EnterTitle && state != SetDeadlineInputDate
    ensures RouteMessage(state, Some(CreateProjectText), None) == NewProject
    ensures RouteMessage(state, Some(MyProjectsText), None) == ListProjects
  {
    PlainTextRoute(state, CreateProjectText);
    PlainTextRoute(state, MyProjectsText);
  }

  lemma NotificationsKbRoutes(state: State)
    ensures state != EnterTitle && state != SetDeadlineInputDate ==>
      && RouteMessage(state, Some(EnableText), None) == Enable
      && RouteMessage(state, Some(DisableText), None) == Disable
      && RouteMessage(state, Some(ChooseIntervalsText), None) == IntervalMenu
      && RouteMessage(state, Some(BackText), None) == Back
  {
    if state != EnterTitle && state != SetDeadlineInputDate {
      SwitchRowRoutes(state);
      IntervalRowRoutes(state);
    }
  }

  /** The first row of the notifications keyboard: enable and disable. */
  lemma SwitchRowRoutes(state: State)
    requires state != EnterTitle && state != SetDeadlineInputDate
    ensures RouteMessage(state, Some(EnableText), None) == Enable
    ensures RouteMessage(state, Some(DisableText), None) == Disable
  {
    ButtonHandlerNames();
    PlainTextRoute(state, EnableText);
    PlainTextRoute(state, DisableText);
  }

  /** The second row of the notifications keyboard: choose intervals and back. */
  lemma IntervalRowRoutes(state: State)
    requires state != EnterTitle && state != SetDeadlineInputDate
    ensures RouteMessage(state, Some(ChooseIntervalsText), None) == IntervalMenu
    ensures RouteMessage(state, Some(BackText), None) == Back
  {
    ButtonHandlerNames();
    PlainTextRoute(state, ChooseIntervalsText);
    PlainTextRoute(state, BackText);
  }

  /** The callback handlers of this router, in registration order. */
  datatype CallbackHandler =
    | ConfirmDelete | CancelDelete | SetHours | Save | ToggleHour | AskDelete | AskDeadline | NoCallbackHandler

  const SetHoursPrefix := "set_hours_"

  /** The handler a callback reaches: callback filters look at the data only, never at the state. */
  function RouteCallback(data: string): (h: CallbackHandler)
    ensures h == ConfirmDelete <==> StartsWith(data, ConfirmDeletePrefix)
    ensures h == CancelDelete <==> data == CancelDeletionData
    ensures h == SetHours <==> StartsWith(data, SetHoursPrefix)
    ensures h == Save <==> data == ReminderSaveData
    ensures h == ToggleHour <==> StartsWith(data, ReminderTogglePrefix)
    ensures h == AskDelete <==> StartsWith(data, DeleteProjectPrefix)
    ensures h == AskDeadline <==> StartsWith(data, SetDeadlinePrefix)
  {
    CallbackFiltersDisjoint(data);
    if StartsWith(data, ConfirmDeletePrefix) then ConfirmDelete
    else if data == CancelDeletionData then CancelDelete
    else if StartsWith(data, SetHoursPrefix) then SetHours
    else if data == ReminderSaveData then Save
    else if StartsWith(data, ReminderTogglePrefix) then ToggleHour
    else if StartsWith(data, DeleteProjectPrefix) then AskDelete
    else if StartsWith(data, SetDeadlinePrefix) then AskDeadline
    else NoCallbackHandler
  }

  /** The callback filters of this router exclude one another, so their registration order decides nothing. */
  lemma CallbackFiltersDisjoint(data: string)
    ensures data == CancelDeletionData ==> !StartsWith(data, ConfirmDeletePrefix)
    ensures StartsWith(data, SetHoursPrefix) ==> !StartsWith(data, ConfirmDeletePrefix) && data != CancelDeletionData
    ensures data == ReminderSaveData ==>
      !StartsWith(data, ConfirmDeletePrefix) && data != CancelDeletionData && !StartsWith(data, SetHoursPrefix)
    ensures StartsWith(data, ReminderTogglePrefix) ==>
      && !StartsWith(data, ConfirmDeletePrefix) && data != CancelDeletionData
      && !StartsWith(data, SetHoursPrefix) && data != ReminderSaveData
    ensures StartsWith(data, DeleteProjectPrefix) ==>
      && !StartsWith(data, ConfirmDeletePrefix) && data != CancelDeletionData
      && !StartsWith(data, SetHoursPrefix) && data != ReminderSaveData && !StartsWith(data, ReminderTogglePrefix)
    ensures StartsWith(data, SetDeadlinePrefix) ==>
      && !StartsWith(data, ConfirmDeletePrefix) && data != CancelDeletionData
      && !StartsWith(data, SetHoursPrefix) && data != ReminderSaveData && !StartsWith(data, ReminderTogglePrefix)
      && !StartsWith(data, DeleteProjectPrefix)
  {
    if data != [] {
      assert StartsWith(data, ConfirmDeletePrefix) ==> data[0] == 'c' && data[1] == 'o' by {
        if StartsWith(data, ConfirmDeletePrefix) {
          assert data[..15][0] == 'c' && data[..15][1] == 'o';
        }
      }
      assert data == CancelDeletionData ==> data[0] == 'c' && data[1] == 'a';
      assert StartsWith(data, SetHoursPrefix) ==> data[0] == 's' && data[4] == 'h' by {
        if StartsWith(data, SetHoursPrefix) {
          assert data[..10][0] == 's' && data[..10][4] == 'h';
        }
      }
      assert data == ReminderSaveData ==> data[0] == 'r' && |data| == 13;
      assert StartsWith(data, ReminderTogglePrefix) ==> data[0] == 'r' && |data| >= 16 by {
        if StartsWith(data, ReminderTogglePrefix) {
          assert data[..16][0] == 'r';
        }
      }
      assert StartsWith(data, DeleteProjectPrefix) ==> data[0] == 'd' by {
        if StartsWith(data, DeleteProjectPrefix) {
          assert data[..15][0] == 'd';
        }
      }
      assert StartsWith(data, SetDeadlinePrefix) ==> data[0] == 's' && data[4] == 'd' by {
        if StartsWith(data, SetDeadlinePrefix) {
          assert data[..13][0] == 's' && data[..13][4] == 'd';
        }
      }
    }
  }


  /**
   * The three buttons under a listed project: delete and set-deadline reach
   * their handlers, "Добавить участника" reaches none.
   */
  lemma ActionButtonsRoute(id: int)
    ensures var kb := ProjectActionsKb(id);
      && RouteCallback(kb[0][0].data) == AskDelete
      && RouteCallback(kb[1][0].data) == NoCallbackHandler
      && RouteCallback(kb[2][0].data) == AskDeadline
  {
    var kb: seq<seq<Button>> := ProjectActionsKb(id);
    ProjectActionsKbDecodes(id);
    var del: string, add: string, dl: string := kb[0][0].data, kb[1][0].data, kb[2][0].data;
    NoOtherPrefix(del, DeleteProjectPrefix);
    NoOtherPrefix(add, AddMemberPrefix);
    NoOtherPrefix(dl, SetDeadlinePrefix);
  }

  /**
   * Data that starts with one of the prefixes the keyboards use does not
   * start with, or equal, any tested before it in `RouteCallback`.
   */
  lemma NoOtherPrefix(data: string, p: string)
    requires p in {DeleteProjectPrefix, AddMemberPrefix, SetDeadlinePrefix, ReminderTogglePrefix}
    requires StartsWith(data, p) && |data| > |p|
    ensures !StartsWith(data, ConfirmDeletePrefix) && data != CancelDeletionData
    ensures !StartsWith(data, SetHoursPrefix) && data != ReminderSaveData
    ensures p != ReminderTogglePrefix ==> !StartsWith(data, ReminderTogglePrefix)
    ensures p == AddMemberPrefix || p == SetDeadlinePrefix ==> !StartsWith(data, DeleteProjectPrefix)
    ensures p == AddMemberPrefix ==> !StartsWith(data, SetDeadlinePrefix)
  {
    assert data[0] == p[0];
    assert p[0] != ConfirmDeletePrefix[0] && p[0] != CancelDeletionData[0];
    if p == SetDeadlinePrefix {
      assert data[4] == p[4] == 'd' != SetHoursPrefix[4];
      assert data[0] != ReminderSaveData[0];
    } else {
      assert p[0] != SetHoursPrefix[0];
    }
    if p == ReminderTogglePrefix {
      assert |data| > 13 == |ReminderSaveData|;
    } else {
      assert p[0] != ReminderSaveData[0];
    }
  }

  /** The deletion keyboard's buttons reach the confirmation and the cancellation. */
  lemma ConfirmButtonsRoute(id: int)
    ensures RouteCallback(ConfirmDeletionKb(id)[0][0].data) == ConfirmDelete
    ensures RouteCallback(ConfirmDeletionKb(id)[1][0].data) == CancelDelete
  {
    var kb: seq<seq<Button>> := ConfirmDeletionKb(id);
    ConfirmDataRoutes(kb[0][0].data);
    CancelDataRoutes();
  }

  lemma ConfirmDataRoutes(data: string)
    requires StartsWith(data, ConfirmDeletePrefix)
    ensures RouteCallback(data) == ConfirmDelete
  {
  }

  lemma CancelDataRoutes()
    ensures RouteCallback(CancelDeletionData) == CancelDelete
  {
    var c := CancelDeletionData;
    assert c[1] != ConfirmDeletePrefix[1];
  }

  /** Each hour button of the reminder keyboard reaches the toggle. */
  lemma HourButtonRoute(h: int)
    ensures RouteCallback(HourButton(h).data) == ToggleHour
  {
    var toggle := HourButton(h).data;
    assert |toggle| > |ReminderTogglePrefix| by {
      assert toggle == Encode(ReminderTogglePrefix, h);
    }
    NoOtherPrefix(toggle, ReminderTogglePrefix);
  }

  /** "Сохранить" reaches the save handler registered first; the second `reminder_save` handler is never reached. */
  lemma SaveButtonRoute()
    ensures RouteCallback(ReminderSaveData) == Save
  {
    var save := ReminderSaveData;
    assert save[0] != ConfirmDeletePrefix[0] && save[0] != CancelDeletionData[0] && save[0] != SetHoursPrefix[0];
  }
}
