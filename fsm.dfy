/**
 * The per-chat conversation context both routers use (aiogram's FSMContext
 * over MemoryStorage): the current state of the conversation's state machine
 * and a dictionary of values the handlers stash between messages.
 */
module Fsm {
  import opened Wrappers
  import opened Text

  /**
   * The states the handlers enter. The AddMember states, and handlers.py's
   * SetDeadline.wait_project_id / wait_deadline, are declared but never set.
   */
  datatype State = NoState | EnterTitle | DeleteConfirm | SetDeadlineInputDate

  /** A value in the data dictionary: None, an int or a str. */
  datatype Value = Null | Int(i: int) | Str(s: string)

  /**
   * The keys the handlers use in the data dictionary: `"project_id"`,
   * `f"project_msg_{id}"` and `f"project_title_{id}"`. The model keys the
   * dictionary by which of these a key is; `KeyText` is the string itself, and
   * `KeyTextInjective` shows that no two keys share a string.
   */
  datatype Key = ProjectIdKey | MsgKey(id: int) | TitleKey(id: int)

  function KeyText(k: Key): string
  {
    match k
    case ProjectIdKey => "project_id"
    case MsgKey(id) => "project_msg_" + IntToString(id)
    case TitleKey(id) => "project_title_" + IntToString(id)
  }

  /** Distinct keys have distinct strings: the kinds differ at their ninth character, the ids by `str` being injective. */
  lemma KeyTextInjective(a: Key, b: Key)
    ensures KeyText(a) == KeyText(b) ==> a == b
  {
    if KeyText(a) == KeyText(b) {
      assert KeyText(a)[8] == KeyText(b)[8];
      match a
      case ProjectIdKey =>
        assert KeyText(a)[8] == 'i';
        assert |KeyText(a)| == 10;
      case MsgKey(x) =>
        assert KeyText(a)[8] == 'm';
        assert b.MsgKey?;
        assert IntToString(x) == KeyText(a)[12..] == KeyText(b)[12..] == IntToString(b.id);
        IntToStringInjective(x, b.id);
      case TitleKey(x) =>
        assert KeyText(a)[8] == 't';
        assert b.TitleKey?;
        assert IntToString(x) == KeyText(a)[14..] == KeyText(b)[14..] == IntToString(b.id);
        IntToStringInjective(x, b.id);
    }
  }

  /** `data.get(key)`: None for a missing key. */
  function Get(data: map<Key, Value>, key: Key): Value
  {
    if key in data then data[key] else Null
  }

  /**
   * The project id a handler acts on: `data.get("project_id")` when it is
   * truthy. Only the `delete_project_` and `set_deadline_` callbacks write this
   * key, always with an int, so 0 and a missing key are the falsy cases.
   */
  function ProjectIdOf(data: map<Key, Value>): (r: Option<int>)
    ensures r.Some? <==> Get(data, ProjectIdKey).Int? && Get(data, ProjectIdKey).i != 0
    ensures r.Some? ==> Get(data, ProjectIdKey) == Int(r.value)
  {
    match Get(data, ProjectIdKey)
    case Int(v) => if v != 0 then Some(v) else None
    case _ => None
  }

  /** Remembering a nonzero id selects that project. */
  lemma SelectsProject(data: map<Key, Value>, id: int)
    requires id != 0
    ensures ProjectIdOf(data[ProjectIdKey := Int(id)]) == Some(id)
  {
  }

  /**
   * `state.update_data(project_id=id)` followed by `state.set_state(next)`:
   * the project is remembered and the conversation moves on to `next`.
   */
  method SelectProject(session: Session, id: int, next: State)
    modifies session
    ensures session.state == next && session.data == old(session.data)[ProjectIdKey := Int(id)]
  {
    var entries := map[ProjectIdKey := Int(id)];
    assert session.data + entries == session.data[ProjectIdKey := Int(id)];
    session.UpdateData(entries);
    session.SetState(next);
  }

  class Session {
    var state: State
    var data: map<Key, Value>

    constructor ()
      ensures state == NoState && data == map[]
    {
      state, data := NoState, map[];
    }

    /** `state.clear()`: forgets the state and all the data. */
    method Clear()
      modifies this
      ensures state == NoState && data == map[]
    {
      state, data := NoState, map[];
    }

    /** `state.set_state(s)`: the data is kept. */
    method SetState(s: State)
      modifies this
      ensures state == s && data == old(data)
    {
      state := s;
    }

    /** `state.update_data(entries)`: the given keys take the given values, the others keep theirs. */
    method UpdateData(entries: map<Key, Value>)
      modifies this
      ensures state == old(state) && data == old(data) + entries
    {
      data := data + entries;
    }
  }
}
