/**
 * The router the bot runs with (handlers.py): `/start`, project creation,
 * the project list and the delete-confirm flow. None of its handlers catches
 * an error for good: each `except` logs and raises again, so a handler that
 * fails leaves the session as it was at the point of failure.
 */
module Handlers {
  import opened Wrappers
  import opened Text
  import opened Db
  import opened Fsm
  import opened Keyboards
  import opened HandlersActions

  /** `cmd_start`: registers the sender as a user. */
  method CmdStart(db: Database, user: int)
    requires db.Valid()
    modifies db
    ensures db.Valid() && db.T() == AfterAddUser(old(db.T()), user)
  {
    db.AddUser(user);
  }

  /** `create_project_start`: the next message is read as a title. */
  method CreateProjectStart(session: Session)
    modifies session
    ensures session.state == EnterTitle && session.data == old(session.data)
  {
    session.SetState(EnterTitle);
  }

  /**
   * `create_project_finish` on this router. A cancel clears the session; an
   * empty or too long title keeps it, still waiting for a title; an accepted
   * title creates one project owned by the sender and clears the session. A
   * message without text raises before anything changes.
   */
  method CreateProjectFinish(db: Database, session: Session, text: Option<string>, user: int)
    requires db.Valid()
    modifies db, session
    ensures db.Valid()
    ensures text.Some? && CheckTitle(text.value).Accepted? ==>
      && db.T() == AfterCreate(old(db.T()), CheckTitle(text.value).title, user)
      && session.state == NoState && session.data == map[]
    ensures !(text.Some? && CheckTitle(text.value).Accepted?) ==> db.T() == old(db.T())
    ensures text.Some? && CheckTitle(text.value).Cancelled? ==> session.state == NoState && session.data == map[]
    ensures text.None? || CheckTitle(text.value).Empty? || CheckTitle(text.value).TooLong? ==>
      session.state == old(session.state) && session.data == old(session.data)
  {
    if text.None? {
      return;
    }
    match CheckTitle(text.value)
    case Cancelled =>
      session.Clear();
    case Empty =>
    case TooLong =>
    case Accepted(title) =>
      var _ := db.CreateProject(title, user);
      session.Clear();
  }

  /** `my_projects`: one message per project of the sender, with its action buttons; nothing is stored. */
  method MyProjects(db: Database, user: int) returns (shown: seq<ProjectRow>)
    ensures shown == UserProjects(db.T(), user)
    ensures forall i :: 0 <= i < |shown| ==> Owns(db.T(), shown[i].id, user)
    ensures forall id :: Owns(db.T(), id, user) ==> exists i :: 0 <= i < |shown| && shown[i].id == id
    ensures forall i, j :: 0 <= i < j < |shown| ==> shown[i].id != shown[j].id
  {
    shown := db.GetUserProjects(user);
  }

  /**
   * `confirm_delete_project` (the `delete_project_` callback): remembers the
   * project and waits for the confirmation. Data that does not decode raises
   * before anything changes.
   */
  method ConfirmDeleteProject(session: Session, data: string)
    modifies session
    ensures DecodeId(data).None? ==> session.state == old(session.state) && session.data == old(session.data)
    ensures DecodeId(data).Some? ==>
      && session.state == DeleteConfirm
      && session.data == old(session.data)[ProjectIdKey := Int(DecodeId(data).value)]
  {
    var id := DecodeId(data);
    if id.None? {
      return;
    }
    SelectProject(session, id.value, DeleteConfirm);
  }

  /**
   * `delete_project` (the `confirm_delete_` callback): without a remembered
   * project nothing happens; with one the deletion is attempted for the
   * sender and the session is cleared whatever the outcome.
   */
  method DeleteProject(db: Database, session: Session, user: int) returns (deleted: bool)
    requires db.Valid()
    modifies db, session
    ensures db.Valid()
    ensures ProjectIdOf(old(session.data)).None? ==>
      && !deleted && db.T() == old(db.T())
      && session.state == old(session.state) && session.data == old(session.data)
    ensures ProjectIdOf(old(session.data)).Some? ==>
      && deleted == Owns(old(db.T()), ProjectIdOf(old(session.data)).value, user)
      && db.T() == AfterDelete(old(db.T()), ProjectIdOf(old(session.data)).value, user)
      && session.state == NoState && session.data == map[]
  {
    var pid := ProjectIdOf(session.data);
    if pid.None? {
      return false;
    }
    deleted := db.DeleteProject(pid.value, user);
    session.Clear();
  }

  /** `cancel_deletion`. */
  method CancelDeletion(session: Session)
    modifies session
    ensures session.state == NoState && session.data == map[]
  {
    session.Clear();
  }

  // ---- dispatch ---------------------------------------------------------------

  /** The message handlers of this router, in registration order. */
  datatype MessageHandler = Start | NewProject | TitleInput | ListProjects | NoMessageHandler

  /**
   * The first registered handler whose filters pass. `/start` is matched on
   * the text, or on the caption of a message without text; the button filters
   * compare the text exactly. The title handler comes after `/start` and
   * "Создать проект", which therefore still work while a title is awaited,
   * but before "Мои проекты".
   */
  function RouteMessage(state: State, text: Option<string>, caption: Option<string>): (h: MessageHandler)
    ensures h == Start <==> StartFilter(text, caption)
    ensures h == TitleInput <==>
      state == EnterTitle && !StartFilter(text, caption) && text != Some(CreateProjectText)
  {
    if StartFilter(text, caption) then Start
    else if text == Some(CreateProjectText) then NewProject
    else if state == EnterTitle then TitleInput
    else if text == Some(MyProjectsText) then ListProjects
    else NoMessageHandler
  }

  /** The callback handlers of this router, in registration order. */
  datatype CallbackHandler = AskDelete | ConfirmDelete | CancelDelete | NoCallbackHandler

  function RouteCallback(data: string): (h: CallbackHandler)
    ensures h == AskDelete <==> StartsWith(data, DeleteProjectPrefix)
    ensures h == ConfirmDelete <==> StartsWith(data, ConfirmDeletePrefix)
    ensures h == CancelDelete <==> data == CancelDeletionData
  {
    DeleteFiltersDisjoint(data);
    if StartsWith(data, DeleteProjectPrefix) then AskDelete
    else if StartsWith(data, ConfirmDeletePrefix) then ConfirmDelete
    else if data == CancelDeletionData then CancelDelete
    else NoCallbackHandler
  }

  /** The three deletion filters exclude one another, so their registration order decides nothing. */
  lemma DeleteFiltersDisjoint(data: string)
    ensures StartsWith(data, DeleteProjectPrefix) ==> !StartsWith(data, ConfirmDeletePrefix) && data != CancelDeletionData
    ensures StartsWith(data, ConfirmDeletePrefix) ==> data != CancelDeletionData
  {
    if data != [] {
      assert StartsWith(data, DeleteProjectPrefix) ==> data[0] == 'd' by {
        if StartsWith(data, DeleteProjectPrefix) {
          assert data[..15][0] == 'd';
        }
      }
      assert StartsWith(data, ConfirmDeletePrefix) ==> data[0] == 'c' && data[1] == 'o' by {
        if StartsWith(data, ConfirmDeletePrefix) {
          assert data[..15][0] == 'c' && data[..15][1] == 'o';
        }
      }
      assert data == CancelDeletionData ==> data[0] == 'c' && data[1] == 'a';
    }
  }

  /** A message reaches the handler `RouteMessage` picks, which then does what it does. */
  method HandleMessage(db: Database, session: Session, text: Option<string>, caption: Option<string>, user: int)
    requires db.Valid()
    modifies db, session
    ensures db.Valid()
    ensures RouteMessage(old(session.state), text, caption) == NoMessageHandler ==>
      db.T() == old(db.T()) && session.state == old(session.state) && session.data == old(session.data)
    ensures RouteMessage(old(session.state), text, caption) == Start ==>
      db.T() == AfterAddUser(old(db.T()), user) && session.state == old(session.state) && session.data == old(session.data)
    ensures RouteMessage(old(session.state), text, caption) == NewProject ==>
      db.T() == old(db.T()) && session.state == EnterTitle && session.data == old(session.data)
    ensures RouteMessage(old(session.state), text, caption) == ListProjects ==>
      db.T() == old(db.T()) && session.state == old(session.state) && session.data == old(session.data)
    ensures RouteMessage(old(session.state), text, caption) == TitleInput ==>
      && (text.Some? && CheckTitle(text.value).Accepted? ==>
            db.T() == AfterCreate(old(db.T()), CheckTitle(text.value).title, user) && session.state == NoState && session.data == map[])
      && (!(text.Some? && CheckTitle(text.value).Accepted?) ==> db.T() == old(db.T()))
      && (text.Some? && CheckTitle(text.value).Cancelled? ==> session.state == NoState && session.data == map[])
      && (text.None? || CheckTitle(text.value).Empty? || CheckTitle(text.value).TooLong? ==>
            session.state == old(session.state) && session.data == old(session.data))
  {
    match RouteMessage(session.state, text, caption)
    case Start =>
      CmdStart(db, user);
    case NewProject =>
      CreateProjectStart(session);
    case TitleInput =>
      CreateProjectFinish(db, session, text, user);
    case ListProjects =>
      var _ := MyProjects(db, user);
    case NoMessageHandler =>
  }

  /** A callback reaches the handler `RouteCallback` picks. */
  method HandleCallback(db: Database, session: Session, data: string, user: int) returns (deleted: bool)
    requires db.Valid()
    modifies db, session
    ensures db.Valid()
    ensures RouteCallback(data) == AskDelete ==>
      && !deleted && db.T() == old(db.T())
      && (DecodeId(data).None? ==> session.state == old(session.state) && session.data == old(session.data))
      && (DecodeId(data).Some? ==>
            session.state == DeleteConfirm && session.data == old(session.data)[ProjectIdKey := Int(DecodeId(data).value)])
    ensures RouteCallback(data) == ConfirmDelete && ProjectIdOf(old(session.data)).None? ==>
      !deleted && db.T() == old(db.T()) && session.state == old(session.state) && session.data == old(session.data)
    ensures RouteCallback(data) == ConfirmDelete && ProjectIdOf(old(session.data)).Some? ==>
      && deleted == Owns(old(db.T()), ProjectIdOf(old(session.data)).value, user)
      && db.T() == AfterDelete(old(db.T()), ProjectIdOf(old(session.data)).value, user)
      && session.state == NoState && session.data == map[]
    ensures RouteCallback(data) == CancelDelete ==>
      !deleted && db.T() == old(db.T()) && session.state == NoState && session.data == map[]
    ensures RouteCallback(data) == NoCallbackHandler ==>
      !deleted && db.T() == old(db.T()) && session.state == old(session.state) && session.data == old(session.data)
  {
    deleted := false;
    match RouteCallback(data)
    case AskDelete =>
      ConfirmDeleteProject(session, data);
    case ConfirmDelete =>
      deleted := DeleteProject(db, session, user);
    case CancelDelete =>
      CancelDeletion(session);
    case NoCallbackHandler =>
  }

  /** The main keyboard's "Мои проекты", pressed while a title is awaited, becomes the title of a new project. */
  lemma MenuTextCapturedAsTitle()
    ensures RouteMessage(EnterTitle, Some(MyProjectsText), None) == TitleInput
    ensures CheckTitle(MyProjectsText) == Accepted(MyProjectsText)
  {
    var t := MyProjectsText;
    assert t[0] == 'М' && t[|t| - 1] == 'ы' && |t| == 11;
    NotCommand(t);
    assert t != CreateProjectText by {
      assert |CreateProjectText| == 14;
    }
    assert Lower(t) != CancelWord by {
      assert |Lower(t)| == 11;
    }
    AcceptedWhen(t);
  }

  /**
   * Deleting through the buttons: "Удалить проект" under a project, then
   * "Да, удалить", deletes exactly that project when the sender created it,
   * and leaves the session cleared.
   */
  method DeleteThroughButtons(db: Database, session: Session, id: int, user: int) returns (deleted: bool)
    requires db.Valid() && id > 0
    modifies db, session
    ensures db.Valid()
    ensures deleted == Owns(old(db.T()), id, user)
    ensures db.T() == AfterDelete(old(db.T()), id, user)
    ensures session.state == NoState && session.data == map[]
  {
    ProjectActionsKbDecodes(id);
    var askData: string := ProjectActionsKb(id)[0][0].data;
    assert StartsWith(askData, DeleteProjectPrefix) && DecodeId(askData) == Some(id);
    var confirmData: string := ConfirmDeletionKb(id)[0][0].data;
    assert StartsWith(confirmData, ConfirmDeletePrefix);
    AskDeleteRoutes(askData);
    ConfirmRoutes(confirmData);
    ghost var t0 := db.T();
    deleted := HandleCallback(db, session, askData, user);
    assert db.T() == t0;
    assert session.data == old(session.data)[ProjectIdKey := Int(id)];
    SelectsProject(old(session.data), id);
    deleted := HandleCallback(db, session, confirmData, user);
  }

  /** `/start` with arguments on a new line, or as a caption, still registers the user while a title is awaited. */
  lemma StartBeatsTitle()
    ensures RouteMessage(EnterTitle, Some("/start\nabc"), None) == Start
    ensures RouteMessage(EnterTitle, None, Some("/start")) == Start
  {
    StartWithArguments();
    StartAlone();
  }

  lemma AskDeleteRoutes(data: string)
    requires StartsWith(data, DeleteProjectPrefix)
    ensures RouteCallback(data) == AskDelete
  {
  }

  lemma ConfirmRoutes(data: string)
    requires StartsWith(data, ConfirmDeletePrefix)
    ensures RouteCallback(data) == ConfirmDelete
  {
    assert data[0] == 'c' != DeleteProjectPrefix[0];
  }
}
