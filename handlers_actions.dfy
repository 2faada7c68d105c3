/**
 * The state-driven handlers of the second router (handlers_actions.py): the
 * title a user types after "Создать проект", the delete confirmation, the
 * deadline a user types after "Установить дедлайн", and the reminder-hour
 * toggles.
 *
 * handlers_actions.py imports only `get_main_kb` from keyboards.py, so every
 * use there of `get_cancel_kb`, `get_project_actions_kb`,
 * `show_notifications` or `select_reminder_intervals` raises NameError. Each
 * handler below does what its code does once that is taken into account.
 */
module HandlersActions {
  import opened Wrappers
  import opened Text
  import opened Db
  import opened Fsm
  import opened Keyboards

  const MaxTitleLength := 200
  const CancelWord := "отмена"

  /** What the title checks decide about a message text, in the order they are made. */
  datatype TitleCheck = Cancelled | Empty | TooLong | Accepted(title: string)

  function CheckTitle(text: string): (r: TitleCheck)
    ensures r.Cancelled? <==> Lower(Strip(text)) == CancelWord
    ensures r.Accepted? ==>
      && r.title == Strip(text)
      && 0 < |r.title| <= MaxTitleLength
      && !IsSpace(r.title[0]) && !IsSpace(r.title[|r.title| - 1])
      && Lower(r.title) != CancelWord
    ensures Lower(Strip(text)) != CancelWord ==>
      && (r.Empty? <==> Strip(text) == [])
      && (r.TooLong? <==> |Strip(text)| > MaxTitleLength)
  {
    var title := Strip(text);
    if Lower(title) == CancelWord then Cancelled
    else if title == [] then Empty
    else if |title| > MaxTitleLength then TooLong
    else Accepted(title)
  }

  /** An accepted title, sent again, is accepted as it is: the stored title is already stripped. */
  lemma AcceptedTitleStable(text: string)
    requires CheckTitle(text).Accepted?
    ensures CheckTitle(CheckTitle(text).title) == CheckTitle(text)
  {
    var title := CheckTitle(text).title;
    StripKeeps(title);
  }

  /** A text that is already stripped and lowers to the cancel word cancels. */
  lemma CancelsWhen(s: string)
    requires s != [] && !IsSpace(s[0]) && !IsSpace(s[|s| - 1]) && Lower(s) == CancelWord
    ensures CheckTitle(s) == Cancelled
  {
    StripKeeps(s);
  }

  /** The cancel keyboard's button cancels. */
  lemma CancelButtonCancels()
    ensures CheckTitle(CancelText) == Cancelled
  {
    var s := CancelText;
    assert s[0] == 'О' && s[5] == 'а';
    assert Lower(s) == CancelWord by {
      assert |Lower(s)| == 6;
      assert Lower(s)[0] == 'о' && Lower(s)[1] == 'т' && Lower(s)[2] == 'м' && Lower(s)[3] == 'е' && Lower(s)[4] == 'н' && Lower(s)[5] == 'а';
    }
    CancelsWhen(s);
  }

  /** The cancel word typed in capitals cancels too. */
  lemma CapitalsCancel()
    ensures CheckTitle("ОТМЕНА") == Cancelled
  {
    var s := "ОТМЕНА";
    assert s[0] == 'О' && s[5] == 'А';
    assert Lower(s) == CancelWord by {
      assert |Lower(s)| == 6;
      assert Lower(s)[0] == 'о' && Lower(s)[1] == 'т' && Lower(s)[2] == 'м' && Lower(s)[3] == 'е' && Lower(s)[4] == 'н' && Lower(s)[5] == 'а';
    }
    CancelsWhen(s);
  }

  /** A stripped text of at most 200 characters that is not the cancel word is accepted as it is. */
  lemma AcceptedWhen(s: string)
    requires s != [] && !IsSpace(s[0]) && !IsSpace(s[|s| - 1])
    requires |s| <= MaxTitleLength && Lower(s) != CancelWord
    ensures CheckTitle(s) == Accepted(s)
  {
    StripKeeps(s);
  }

  /**
   * `create_project_finish` on this router, for a message whose text is `text`
   * (None for a message without text). A cancel, an empty or too long title, a
   * message without text: nothing is created. An accepted title creates one
   * project owned by the chat. The session ends cleared on every path: the
   * rejections reach the `except` branch through the NameError on
   * `get_cancel_kb`.
   */
  method CreateProjectFinish(db: Database, session: Session, text: Option<string>, chat: int)
    requires db.Valid()
    modifies db, session
    ensures db.Valid()
    ensures text.Some? && CheckTitle(text.value).Accepted? ==>
      db.T() == AfterCreate(old(db.T()), CheckTitle(text.value).title, chat)
    ensures !(text.Some? && CheckTitle(text.value).Accepted?) ==> db.T() == old(db.T())
    ensures session.state == NoState && session.data == map[]
  {
    if text.None? {
      session.Clear();
      return;
    }
    match CheckTitle(text.value)
    case Cancelled =>
      session.Clear();
    case Empty =>
      session.Clear();
    case TooLong =>
      session.Clear();
    case Accepted(title) =>
      var _ := db.CreateProject(title, chat);
      session.Clear();
  }

  /**
   * `confirm_delete_project` (the `confirm_delete_` callback). The project is
   * the one the session remembers, not the one in the callback data. Without
   * one nothing happens at all; with one the deletion is attempted for the
   * caller, the project's message keys are nulled and the session is cleared,
   * whether or not the caller was allowed to delete.
   */
  method ConfirmDeleteProject(db: Database, session: Session, user: int) returns (deleted: bool)
    requires db.Valid()
    modifies db, session
    ensures db.Valid()
    ensures ProjectIdOf(old(session.data)).None? ==>
      && !deleted && db.T() == old(db.T())
      && session.state == old(session.state) && session.data == old(session.data)
    ensures ProjectIdOf(old(session.data)).Some? ==>
      && deleted == Owns(old(db.T()), ProjectIdOf(old(session.data)).value, user)
      && db.T() == AfterDelete(old(db.T()), ProjectIdOf(old(session.data)).value, user)
      && session.state == NoState && session.data == map[]
  {
    var pid := ProjectIdOf(session.data);
    if pid.None? {
      return false;
    }
    deleted := db.DeleteProject(pid.value, user);
    session.UpdateData(map[MsgKey(pid.value) := Null, TitleKey(pid.value) := Null]);
    session.Clear();
  }

  /** `cancel_deletion`: the session is cleared and the store untouched. */
  method CancelDeletion(session: Session)
    modifies session
    ensures session.state == NoState && session.data == map[]
  {
    session.Clear();
  }

  /**
   * `process_deadline_input`. `deadline` is the parsed date as a timestamp, or
   * None when the message has no text or does not parse: nothing changes then
   * (a message without text raises in the `try`, and the `except` branch raises
   * again on `message.send` before it clears). Without a project in the session
   * the session is cleared. Otherwise the deadline is set for the chat as
   * creator, which changes nothing unless the chat owns the project, and the
   * session is cleared.
   */
  method ProcessDeadlineInput(db: Database, session: Session, deadline: Option<int>, chat: int) returns (ok: bool)
    requires db.Valid()
    modifies db, session
    ensures db.Valid()
    ensures deadline.None? ==>
      && !ok && db.T() == old(db.T())
      && session.state == old(session.state) && session.data == old(session.data)
    ensures deadline.Some? ==> session.state == NoState && session.data == map[]
    ensures deadline.Some? && ProjectIdOf(old(session.data)).None? ==> !ok && db.T() == old(db.T())
    ensures deadline.Some? && ProjectIdOf(old(session.data)).Some? ==>
      && ok == Owns(old(db.T()), ProjectIdOf(old(session.data)).value, chat)
      && db.T() == AfterSetDeadline(old(db.T()), ProjectIdOf(old(session.data)).value, deadline.value, chat)
  {
    if deadline.None? {
      return false;
    }
    var pid := ProjectIdOf(session.data);
    if pid.None? {
      session.Clear();
      return false;
    }
    ok := db.SetDeadline(pid.value, deadline.value, chat);
    session.Clear();
  }

  /** `reminder_save`: the answer is sent, then `show_notifications` is a NameError and the session is cleared. */
  method SaveReminderSettings(session: Session)
    modifies session
    ensures session.state == NoState && session.data == map[]
  {
    session.Clear();
  }

  /** The position of the first `h` in `hs`. */
  function FirstIndex(hs: seq<int>, h: int): (i: nat)
    requires h in hs
    ensures i < |hs| && hs[i] == h && h !in hs[..i]
  {
    if hs[0] == h then 0
    else
      var i := 1 + FirstIndex(hs[1..], h);
      assert hs[..i] == [hs[0]] + hs[1..][..i - 1];
      i
  }

  /** `hours.remove(h)`: the first `h` goes, the rest keeps its order. */
  function RemoveFirst(hs: seq<int>, h: int): (r: seq<int>)
    requires h in hs
    ensures exists i :: 0 <= i < |hs| && hs[i] == h && h !in hs[..i] && r == hs[..i] + hs[i + 1..]
    ensures multiset(r) + multiset{h} == multiset(hs)
    ensures |r| == |hs| - 1
  {
    var i := FirstIndex(hs, h);
    assert hs == hs[..i] + [h] + hs[i + 1..];
    hs[..i] + hs[i + 1..]
  }

  /** The in-place edit of the toggle: remove the first `h` if there is one, else append `h`. */
  function Toggled(hs: seq<int>, h: int): (r: seq<int>)
    ensures h in hs ==> exists i :: 0 <= i < |hs| && hs[i] == h && h !in hs[..i] && r == hs[..i] + hs[i + 1..]
    ensures h in hs ==> multiset(r) == multiset(hs) - multiset{h}
    ensures h !in hs ==> r == hs + [h]
  {
    if h in hs then RemoveFirst(hs, h) else hs + [h]
  }

  /** Only the first of two equal hours goes, and the order of the rest is kept. */
  lemma RemoveFirstKeepsOrder(h: int, x: int)
    ensures RemoveFirst([h, x, h], h) == [x, h]
  {
    var a := [h, x, h];
    var i :| 0 <= i < |a| && a[i] == h && h !in a[..i] && RemoveFirst(a, h) == a[..i] + a[i + 1..];
    assert a[1..] == [x, h];
  }

  /** Toggling off an hour between two others keeps them in place. */
  lemma ToggleKeepsOrder(x: int, h: int, y: int)
    requires x != h && y != h
    ensures Toggled([x, h, y], h) == [x, y]
  {
    var b := [x, h, y];
    assert h in b by {
      assert b[1] == h;
    }
    RemoveMiddle(x, h, y);
  }

  lemma RemoveMiddle(x: int, h: int, y: int)
    requires x != h && y != h
    ensures RemoveFirst([x, h, y], h) == [x, y]
  {
    var b := [x, h, y];
    assert b[1] == h;
    var i := FirstIndex(b, h);
    assert i == 1 by {
      assert b[0] == x && b[..2] == [x, h];
    }
    calc {
      RemoveFirst(b, h);
      b[..1] + b[2..];
      { assert b[..1] == [x] && b[2..] == [y]; }
      [x, y];
    }
  }

  /** On a list holding `h` at most once, toggling flips whether `h` is there and twice gives back the same hours. */
  lemma ToggleFlips(hs: seq<int>, h: int)
    requires multiset(hs)[h] <= 1
    ensures h in Toggled(hs, h) <==> h !in hs
    ensures multiset(Toggled(hs, h))[h] <= 1
    ensures multiset(Toggled(Toggled(hs, h), h)) == multiset(hs)
  {
    var once := Toggled(hs, h);
    if h in hs {
      assert multiset(once)[h] == 0;
      assert h !in once;
      assert multiset(Toggled(once, h)) == multiset(once) + multiset{h};
    } else {
      assert multiset(hs)[h] == 0;
      assert h in once;
      assert multiset(once)[h] == 1;
      assert multiset(Toggled(once, h)) == multiset(once) - multiset{h};
    }
  }

  /** The toggle empties the list exactly when `h` was its only hour. */
  lemma ToggleEmpties(hs: seq<int>, h: int)
    ensures Toggled(hs, h) == [] <==> hs == [h]
  {
    if hs == [h] {
      assert multiset(Toggled(hs, h)) == multiset{};
    }
    if Toggled(hs, h) == [] && h in hs {
      assert multiset(hs) == multiset{h};
      assert |hs| == 1 && hs[0] in multiset(hs);
    }
  }

  /** The hours the toggle starts from: the stored list, `[]` when the user has no settings row. */
  function CurrentHours(t: Tables, user: int): Option<seq<int>>
  {
    match SettingsOf(t, user)
    case None => Some([])
    case Some(s) => s.reminderHours
  }

  /**
   * The store after `toggle_reminder_hour` for the callback data `data`. An
   * hour that does not decode, or a stored NULL list (`hour in None` raises),
   * stops the handler before it writes; otherwise the toggled list is written
   * together with `enable_reminders = True`, subject to the hour-list validation.
   */
  function AfterToggle(t: Tables, user: int, data: string): (r: Tables)
    requires Consistent(t)
    ensures Consistent(r)
  {
    match DecodeId(data)
    case None => t
    case Some(h) =>
      match CurrentHours(t, user)
      case None => t
      case Some(hs) => AfterUpdateSettings(t, user, Some(true), Some(Toggled(hs, h)))
  }

  /** `toggle_reminder_hour`: the store changes as `AfterToggle` says; the session is always cleared. */
  method ToggleReminderHour(db: Database, session: Session, data: string, user: int)
    requires db.Valid()
    modifies db, session
    ensures db.Valid()
    ensures db.T() == AfterToggle(old(db.T()), user, data)
    ensures session.state == NoState && session.data == map[]
  {
    ghost var t0 := db.T();
    var hour := DecodeId(data);
    if hour.None? {
      session.Clear();
      return;
    }
    var settings := db.GetNotificationSettings(user);
    assert settings == SettingsOf(t0, user);
    var hours: seq<int>;
    if settings.None? {
      hours := [];
    } else if settings.value.reminderHours.None? {
      session.Clear();
      return;
    } else {
      hours := settings.value.reminderHours.value;
    }
    if hour.value in hours {
      hours := RemoveFirst(hours, hour.value);
    } else {
      hours := hours + [hour.value];
    }
    assert CurrentHours(t0, user).Some? && hours == Toggled(CurrentHours(t0, user).value, hour.value);
    assert AfterToggle(t0, user, data) == AfterUpdateSettings(t0, user, Some(true), Some(hours));
    var _ := db.UpdateNotificationSettings(user, Some(true), Some(hours));
    session.Clear();
  }

  /** A toggle by a positive hour keeps a valid list valid, unless it empties it. */
  lemma ToggledValid(hs: seq<int>, h: int)
    requires hs == [] || ValidHours(hs)
    requires h > 0 && hs != [h]
    ensures ValidHours(Toggled(hs, h))
  {
    var nh := Toggled(hs, h);
    ToggleEmpties(hs, h);
    forall i | 0 <= i < |nh|
      ensures nh[i] > 0
    {
      assert nh[i] in multiset(nh);
      if h in hs {
        assert nh[i] in multiset(hs);
      } else {
        assert nh[i] in hs + [h];
      }
    }
  }

  /**
   * A toggle whose callback data decodes to the positive hour `h`, as every
   * button of the reminder keyboard does (`HourButton`). With the stored list
   * `[h]` nothing is written (the empty list fails validation); otherwise the
   * user's row becomes enabled with the toggled list, and no other user's row
   * changes.
   */
  lemma ToggleOutcome(t: Tables, user: int, h: int, data: string)
    requires Consistent(t) && h > 0 && DecodeId(data) == Some(h)
    requires CurrentHours(t, user).Some?
    ensures var hs := CurrentHours(t, user).value;
      var r := AfterToggle(t, user, data);
      && (hs == [h] ==> r == t)
      && (hs != [h] ==>
            && SettingsOf(r, user) == Some(Settings(Some(true), Some(Toggled(hs, h))))
            && (forall u :: u != user ==> SettingsOf(r, u) == SettingsOf(t, u)))
  {
    var hs := CurrentHours(t, user).value;
    var nh := Toggled(hs, h);
    var r := AfterToggle(t, user, data);
    assert r == AfterUpdateSettings(t, user, Some(true), Some(nh));
    ToggleEmpties(hs, h);
    if hs == [h] {
      assert !ValidHours(nh);
    } else {
      assert hs == [] || ValidHours(hs);
      ToggledValid(hs, h);
      var s := Upserted(SettingsOf(t, user), Some(true), Some(nh));
      assert s.enableReminders == Some(true) && s.reminderHours == Some(nh);
    }
  }
}
