/**
 * The bot's PostgreSQL store (class `Database` in db.py) as an in-memory
 * relational state. Each SQL statement the class issues is one operation on
 * these tables; `NOW()` is a parameter and timestamps are whole seconds.
 *
 * The rules live in the `After...` transition functions and the query
 * functions; the `Database` class applies them step by step, as the SQL does.
 */
module Db {
  import opened Wrappers
  import opened Ordering

  const Hour := 3600
  /** The reminder window, `INTERVAL '24 hours'`. */
  const Day := 24 * Hour

  /** A `projects` row (its `created_at` column is not modelled). */
  datatype Project = Project(title: string, creator: int, deadline: Option<int>, lastNotificationSent: Option<int>)

  /** A `notifications_settings` row; a column the INSERT was given None for holds NULL. */
  datatype Settings = Settings(enableReminders: Option<bool>, reminderHours: Option<seq<int>>)

  /** An `invites` row. */
  datatype Invite = Invite(active: bool, answer: bool)

  /** A row of `get_user_projects`. */
  datatype ProjectRow = ProjectRow(id: int, project: Project)

  /** A row of `get_projects_near_deadline`: the project's columns and its creator's hour list. */
  datatype Reminder = Reminder(id: int, title: string, deadline: int, creator: int, reminderHours: seq<int>)

  /**
   * The five tables. `project_members` holds (project, user) pairs; `nextId`
   * is the next value of the `projects.id` serial sequence.
   */
  datatype Tables = Tables(
    projects: map<int, Project>,
    members: set<(int, int)>,
    users: set<int>,
    settings: map<int, Settings>,
    invites: map<string, Invite>,
    nextId: int)

  /** The check `update_notification_settings` makes of a new hour list before writing. */
  predicate ValidHours(hours: seq<int>)
  {
    |hours| > 0 && forall i :: 0 <= i < |hours| ==> hours[i] > 0
  }

  /**
   * What every operation keeps: project ids come from the serial sequence,
   * every member row names an existing project and a registered user, and every
   * stored hour list passed the validation.
   */
  predicate Consistent(t: Tables)
  {
    && t.nextId >= 1
    && (forall id :: id in t.projects ==> 1 <= id < t.nextId)
    && (forall m :: m in t.members ==> m.0 in t.projects && m.1 in t.users)
    && (forall u :: u in t.settings && t.settings[u].reminderHours.Some? ==>
          ValidHours(t.settings[u].reminderHours.value))
  }

  /** `SELECT 1 FROM projects WHERE id = $1 AND creator_id = $2` finds a row. */
  predicate Owns(t: Tables, pid: int, user: int)
  {
    pid in t.projects && t.projects[pid].creator == user
  }

  function EmptyTables(): (t: Tables)
    ensures Consistent(t)
  {
    Tables(map[], {}, {}, map[], map[], 1)
  }

  /** `create_project`: one new row under a fresh serial id, with no deadline and no reminder sent. */
  function AfterCreate(t: Tables, title: string, creator: int): (r: Tables)
    requires Consistent(t)
    ensures Consistent(r)
    ensures t.nextId !in t.projects && r.projects.Keys == t.projects.Keys + {t.nextId}
    ensures r.projects[t.nextId] == Project(title, creator, None, None)
    ensures forall id :: id in t.projects ==> r.projects[id] == t.projects[id]
    ensures r.members == t.members && r.users == t.users && r.settings == t.settings && r.invites == t.invites
  {
    t.(projects := t.projects[t.nextId := Project(title, creator, None, None)], nextId := t.nextId + 1)
  }

  /**
   * `delete_project`: refused, with nothing changed, unless the caller created
   * the project; otherwise every member row of the project goes, then the
   * project row, and nothing else.
   */
  function AfterDelete(t: Tables, pid: int, user: int): (r: Tables)
    requires Consistent(t)
    ensures Consistent(r)
    ensures !Owns(t, pid, user) ==> r == t
    ensures Owns(t, pid, user) ==>
      && r.projects.Keys == t.projects.Keys - {pid}
      && (forall id :: id in r.projects ==> r.projects[id] == t.projects[id])
      && (forall m :: m in r.members <==> m in t.members && m.0 != pid)
      && r.users == t.users && r.settings == t.settings && r.invites == t.invites && r.nextId == t.nextId
  {
    if Owns(t, pid, user) then
      t.(members := (set m | m in t.members && m.0 != pid), projects := t.projects - {pid})
    else
      t
  }

  /**
   * `add_member`: refused, with nothing changed, unless `creator` created the
   * project and `user` is registered; otherwise the pair is present afterwards
   * (inserting it again changes nothing) and no other row changes.
   */
  function AfterAddMember(t: Tables, pid: int, user: int, creator: int): (r: Tables)
    requires Consistent(t)
    ensures Consistent(r)
    ensures !(Owns(t, pid, creator) && user in t.users) ==> r == t
    ensures Owns(t, pid, creator) && user in t.users ==>
      && (forall m :: m in r.members <==> m in t.members || m == (pid, user))
      && r == t.(members := r.members)
  {
    if Owns(t, pid, creator) && user in t.users then t.(members := t.members + {(pid, user)}) else t
  }

  /**
   * `set_deadline`: refused, with nothing changed, unless `creator` created the
   * project; otherwise that project's deadline is the new one and no other
   * column of any row changes.
   */
  function AfterSetDeadline(t: Tables, pid: int, deadline: int, creator: int): (r: Tables)
    requires Consistent(t)
    ensures Consistent(r)
    ensures !Owns(t, pid, creator) ==> r == t
    ensures Owns(t, pid, creator) ==>
      && r.projects.Keys == t.projects.Keys
      && r.projects[pid].deadline == Some(deadline)
      && r.projects[pid] == t.projects[pid].(deadline := r.projects[pid].deadline)
      && (forall id :: id in t.projects && id != pid ==> r.projects[id] == t.projects[id])
      && r == t.(projects := r.projects)
  {
    if Owns(t, pid, creator) then
      t.(projects := t.projects[pid := t.projects[pid].(deadline := Some(deadline))])
    else
      t
  }

  /**
   * The settings upsert: a new row takes the arguments as given (None is
   * NULL); on an existing row a None argument keeps the stored column and any
   * other argument replaces it.
   */
  function Upserted(prev: Option<Settings>, enable: Option<bool>, hours: Option<seq<int>>): (r: Settings)
    ensures prev.None? ==> r == Settings(enable, hours)
    ensures enable.Some? ==> r.enableReminders == enable
    ensures hours.Some? ==> r.reminderHours == hours
    ensures prev.Some? && enable.None? ==> r.enableReminders == prev.value.enableReminders
    ensures prev.Some? && hours.None? ==> r.reminderHours == prev.value.reminderHours
  {
    match prev
    case None => Settings(enable, hours)
    case Some(s) =>
      Settings(if enable.None? then s.enableReminders else enable,
               if hours.None? then s.reminderHours else hours)
  }

  /** `get_notification_settings`: the user's row, or None when there is none. */
  function SettingsOf(t: Tables, user: int): Option<Settings>
  {
    if user in t.settings then Some(t.settings[user]) else None
  }

  /**
   * `update_notification_settings`: an hour list that is given but empty or
   * holds a non-positive hour is rejected before anything is written; otherwise
   * the user's row is upserted and no other row changes.
   */
  function AfterUpdateSettings(t: Tables, user: int, enable: Option<bool>, hours: Option<seq<int>>): (r: Tables)
    requires Consistent(t)
    ensures Consistent(r)
    ensures hours.Some? && !ValidHours(hours.value) ==> r == t
    ensures hours.None? || ValidHours(hours.value) ==>
      && SettingsOf(r, user) == Some(Upserted(SettingsOf(t, user), enable, hours))
      && (forall u :: u != user ==> SettingsOf(r, u) == SettingsOf(t, u))
      && r == t.(settings := r.settings)
  {
    if hours.Some? && !ValidHours(hours.value) then t
    else t.(settings := t.settings[user := Upserted(SettingsOf(t, user), enable, hours)])
  }

  /** `set_last_notification`: stamps that one project, if it exists, and changes nothing else. */
  function AfterSetLastNotification(t: Tables, pid: int, ts: int): (r: Tables)
    requires Consistent(t)
    ensures Consistent(r)
    ensures pid !in t.projects ==> r == t
    ensures pid in t.projects ==>
      && r.projects == t.projects[pid := t.projects[pid].(lastNotificationSent := Some(ts))]
      && r == t.(projects := r.projects)
  {
    if pid in t.projects then
      t.(projects := t.projects[pid := t.projects[pid].(lastNotificationSent := Some(ts))])
    else
      t
  }

  /** `set_unikey`: inserts the key or overwrites both flags, whatever they were. */
  function AfterSetUnikey(t: Tables, key: string, active: bool, answer: bool): (r: Tables)
    requires Consistent(t)
    ensures Consistent(r)
    ensures r == t.(invites := t.invites[key := Invite(active, answer)])
  {
    t.(invites := t.invites[key := Invite(active, answer)])
  }

  /** The `/start` INSERT into `users` (ON CONFLICT DO NOTHING). */
  function AfterAddUser(t: Tables, user: int): (r: Tables)
    requires Consistent(t)
    ensures Consistent(r)
    ensures r == t.(users := t.users + {user})
  {
    t.(users := t.users + {user})
  }

  /** `unikey_isactive`. */
  predicate InviteActive(t: Tables, key: string)
  {
    key in t.invites && t.invites[key].active
  }

  /** `check_unikey`: the row is found only while active, and then its answer decides. */
  predicate InviteAccepted(t: Tables, key: string)
  {
    key in t.invites && t.invites[key].active && t.invites[key].answer
  }

  lemma {:induction false} AddMemberIdempotent(t: Tables, pid: int, user: int, creator: int)
    requires Consistent(t)
    ensures AfterAddMember(AfterAddMember(t, pid, user, creator), pid, user, creator)
            == AfterAddMember(t, pid, user, creator)
  {
    var once := AfterAddMember(t, pid, user, creator);
    if Owns(t, pid, creator) && user in t.users {
      assert once.members + {(pid, user)} == once.members;
    }
  }

  /**
   * What the two invite queries answer after `set_unikey`: they follow the new
   * flags for that key, whatever the key held before, and are unchanged for
   * every other key.
   */
  lemma SetUnikeyQueries(t: Tables, key: string, active: bool, answer: bool, other: string)
    requires Consistent(t)
    ensures InviteActive(AfterSetUnikey(t, key, active, answer), key) == active
    ensures InviteAccepted(AfterSetUnikey(t, key, active, answer), key) == (active && answer)
    ensures other != key ==>
      && InviteActive(AfterSetUnikey(t, key, active, answer), other) == InviteActive(t, other)
      && InviteAccepted(AfterSetUnikey(t, key, active, answer), other) == InviteAccepted(t, other)
  {
  }

  /** `get_user_projects`: the user's projects, each once (listed by ascending id). */
  function UserProjects(t: Tables, user: int): (r: seq<ProjectRow>)
    ensures forall i :: 0 <= i < |r| ==>
      r[i].id in t.projects && r[i].project == t.projects[r[i].id] && r[i].project.creator == user
    ensures forall id :: Owns(t, id, user) ==> exists i :: 0 <= i < |r| && r[i].id == id
    ensures forall i, j :: 0 <= i < j < |r| ==> r[i].id != r[j].id
  {
    var ids := OwnedIds(t, user);
    var order := SortedByKey(IdKey(ids), ids);
    OwnedRows(t, user, order);
    ProjectRowsIn(t, order)
  }

  /** Every id is its own sort key. */
  function IdKey(ids: set<int>): (key: map<int, int>)
    ensures ids <= key.Keys
    ensures forall id :: id in ids ==> key[id] == id
  {
    map id | id in ids :: id
  }

  /** Rows of distinct owned ids, listing every owned id, are the user's project list. */
  lemma OwnedRows(t: Tables, user: int, order: seq<int>)
    requires forall i :: 0 <= i < |order| ==> order[i] in t.projects && t.projects[order[i]].creator == user
    requires forall id :: Owns(t, id, user) ==> id in order
    requires forall i, j :: 0 <= i < j < |order| ==> order[i] != order[j]
    ensures var r := ProjectRowsIn(t, order);
      && (forall i :: 0 <= i < |r| ==>
            r[i].id in t.projects && r[i].project == t.projects[r[i].id] && r[i].project.creator == user)
      && (forall id :: Owns(t, id, user) ==> exists i :: 0 <= i < |r| && r[i].id == id)
      && (forall i, j :: 0 <= i < j < |r| ==> r[i].id != r[j].id)
  {
    var r := ProjectRowsIn(t, order);
    forall id | Owns(t, id, user)
      ensures exists i :: 0 <= i < |r| && r[i].id == id
    {
      var i :| 0 <= i < |order| && order[i] == id;
      assert r[i].id == id;
    }
  }

  /** The ids of the projects `user` created. */
  function OwnedIds(t: Tables, user: int): (ids: set<int>)
    ensures forall id :: id in ids <==> Owns(t, id, user)
  {
    set id | id in t.projects && t.projects[id].creator == user
  }

  /** The rows of the projects `order` lists, in that order. */
  function ProjectRowsIn(t: Tables, order: seq<int>): (r: seq<ProjectRow>)
    requires forall i :: 0 <= i < |order| ==> order[i] in t.projects
    ensures |r| == |order|
    ensures forall i :: 0 <= i < |r| ==> r[i] == ProjectRow(order[i], t.projects[order[i]])
  {
    seq(|order|, i requires 0 <= i < |order| => ProjectRow(order[i], t.projects[order[i]]))
  }

  // ---- get_projects_near_deadline ----------------------------------------------

  /** The deadline lies in `[now, now + 24h]` (SQL BETWEEN is inclusive). */
  predicate InWindow(p: Project, now: int)
  {
    p.deadline.Some? && now <= p.deadline.value <= now + Day
  }

  /** The creator's settings row has reminders enabled and an hour list to UNNEST. */
  predicate RemindersOn(t: Tables, p: Project)
  {
    && p.creator in t.settings
    && t.settings[p.creator].enableReminders == Some(true)
    && t.settings[p.creator].reminderHours.Some?
  }

  /** The project has a deadline and joins its creator's settings row. */
  predicate Joinable(t: Tables, id: int)
  {
    id in t.projects && t.projects[id].deadline.Some? && RemindersOn(t, t.projects[id])
  }

  function HoursOf(t: Tables, id: int): seq<int>
    requires Joinable(t, id)
  {
    t.settings[t.projects[id].creator].reminderHours.value
  }

  /**
   * The per-hour part of the WHERE clause as written: no reminder sent yet or
   * the last one before the boundary `deadline - rh hours`, and the boundary
   * not yet in the past.
   */
  predicate DueAsWritten(deadline: int, last: Option<int>, rh: int, now: int)
  {
    var boundary := deadline - rh * Hour;
    (last.None? || last.value < boundary) && boundary >= now
  }

  /** Some joined (project, rh) row satisfies the whole WHERE clause. */
  predicate ListedAsWritten(t: Tables, id: int, now: int)
  {
    && Joinable(t, id)
    && InWindow(t.projects[id], now)
    && SomeHourDueAsWritten(t.projects[id].deadline.value, t.projects[id].lastNotificationSent, HoursOf(t, id), now)
  }

  predicate SomeHourDueAsWritten(deadline: int, last: Option<int>, hours: seq<int>, now: int)
  {
    exists i :: 0 <= i < |hours| && DueAsWritten(deadline, last, hours[i], now)
  }

  function RowOf(t: Tables, id: int): Reminder
    requires Joinable(t, id)
  {
    var p := t.projects[id];
    Reminder(id, p.title, p.deadline.value, p.creator, HoursOf(t, id))
  }

  /** Each project's deadline, the sort key of `ORDER BY p.deadline`. */
  function DeadlineKey(t: Tables, ids: set<int>): (key: map<int, int>)
    requires forall id :: id in ids ==> Joinable(t, id)
    ensures key.Keys == ids
    ensures forall id :: id in ids ==>
              id in t.projects && t.projects[id].deadline.Some? && key[id] == t.projects[id].deadline.value
  {
    map id | id in ids && Joinable(t, id) :: t.projects[id].deadline.value
  }

  /** The rows of the projects `order` lists, in that order. */
  function RowsIn(t: Tables, order: seq<int>): (r: seq<Reminder>)
    requires forall i :: 0 <= i < |order| ==> Joinable(t, order[i])
    ensures |r| == |order|
    ensures forall i :: 0 <= i < |r| ==> r[i] == RowOf(t, order[i]) && r[i].id == order[i]
  {
    seq(|order|, i requires 0 <= i < |order| => RowOf(t, order[i]))
  }

  /** The rows of the given projects, one per project (SELECT DISTINCT), ORDER BY deadline. */
  function Rows(t: Tables, ids: set<int>): (r: seq<Reminder>)
    requires forall id :: id in ids ==> Joinable(t, id)
    ensures forall i :: 0 <= i < |r| ==> r[i].id in ids && r[i] == RowOf(t, r[i].id)
    ensures forall id :: id in ids ==> exists i :: 0 <= i < |r| && r[i].id == id
    ensures forall i, j :: 0 <= i < j < |r| ==> r[i].id != r[j].id && r[i].deadline <= r[j].deadline
  {
    var key := DeadlineKey(t, ids);
    var order := SortedByKey(key, ids);
    RowsInSorted(t, ids, key, order);
    RowsIn(t, order)
  }

  /** Listing the rows in the sorted order gives each selected project once, by ascending deadline. */
  lemma RowsInSorted(t: Tables, ids: set<int>, key: map<int, int>, order: seq<int>)
    requires forall id :: id in ids ==> Joinable(t, id)
    requires key == DeadlineKey(t, ids) && order == SortedByKey(key, ids)
    ensures var r := RowsIn(t, order);
      && (forall i :: 0 <= i < |r| ==> r[i].id in ids && r[i] == RowOf(t, r[i].id))
      && (forall id :: id in ids ==> exists i :: 0 <= i < |r| && r[i].id == id)
      && (forall i, j :: 0 <= i < j < |r| ==> r[i].id != r[j].id && r[i].deadline <= r[j].deadline)
  {
    var r := RowsIn(t, order);
    forall id | id in ids
      ensures exists i :: 0 <= i < |r| && r[i].id == id
    {
      var i :| 0 <= i < |order| && order[i] == id;
      assert r[i].id == id;
    }
    forall i, j | 0 <= i < j < |r|
      ensures r[i].id != r[j].id && r[i].deadline <= r[j].deadline
    {
      assert Before(key, order[i], order[j]);
      assert r[i].deadline == key[order[i]] && r[j].deadline == key[order[j]];
    }
  }

  /**
   * `get_projects_near_deadline`, as written: exactly the projects some hour
   * of whose creator's list satisfies the WHERE clause, each once, in
   * ascending deadline order, each with its creator's (valid) hour list.
   */
  function NearDeadline(t: Tables, now: int): (r: seq<Reminder>)
    ensures forall i :: 0 <= i < |r| ==> ListedAsWritten(t, r[i].id, now) && r[i] == RowOf(t, r[i].id)
    ensures forall id :: ListedAsWritten(t, id, now) ==> exists i :: 0 <= i < |r| && r[i].id == id
    ensures forall i, j :: 0 <= i < j < |r| ==> r[i].id != r[j].id && r[i].deadline <= r[j].deadline
    ensures Consistent(t) ==> forall i :: 0 <= i < |r| ==> ValidHours(r[i].reminderHours)
  {
    var r := Rows(t, ListedAsWrittenIds(t, now));
    assert Consistent(t) ==> forall i :: 0 <= i < |r| ==> ValidHours(r[i].reminderHours) by {
      if Consistent(t) {
        forall i | 0 <= i < |r|
          ensures ValidHours(r[i].reminderHours)
        {
          RowHoursValid(t, r[i].id);
        }
      }
    }
    r
  }

  function ListedAsWrittenIds(t: Tables, now: int): (ids: set<int>)
    ensures forall id :: id in ids <==> ListedAsWritten(t, id, now)
  {
    set id | id in t.projects && ListedAsWritten(t, id, now)
  }

  /** A joined row carries its creator's stored hour list, which passed validation. */
  lemma RowHoursValid(t: Tables, id: int)
    requires Consistent(t) && Joinable(t, id)
    ensures ValidHours(RowOf(t, id).reminderHours)
  {
    var u := t.projects[id].creator;
    assert RowOf(t, id).reminderHours == t.settings[u].reminderHours.value;
  }

  /**
   * The per-hour condition the watermark is evidently meant for (the boundary
   * has been reached, and no reminder was sent since it).
   */
  predicate DueIntended(deadline: int, last: Option<int>, rh: int, now: int)
  {
    var boundary := deadline - rh * Hour;
    boundary <= now && (last.None? || last.value < boundary)
  }

  predicate ListedIntended(t: Tables, id: int, now: int)
  {
    && Joinable(t, id)
    && InWindow(t.projects[id], now)
    && SomeHourDueIntended(t.projects[id].deadline.value, t.projects[id].lastNotificationSent, HoursOf(t, id), now)
  }

  predicate SomeHourDueIntended(deadline: int, last: Option<int>, hours: seq<int>, now: int)
  {
    exists i :: 0 <= i < |hours| && DueIntended(deadline, last, hours[i], now)
  }

  /** The corrected reminder query: the same join, order and distinctness, with the boundary test reversed. */
  function DueReminders(t: Tables, now: int): (r: seq<Reminder>)
    ensures forall i :: 0 <= i < |r| ==> ListedIntended(t, r[i].id, now) && r[i] == RowOf(t, r[i].id)
    ensures forall id :: ListedIntended(t, id, now) ==> exists i :: 0 <= i < |r| && r[i].id == id
    ensures forall i, j :: 0 <= i < j < |r| ==> r[i].id != r[j].id && r[i].deadline <= r[j].deadline
  {
    Rows(t, ListedIntendedIds(t, now))
  }

  function ListedIntendedIds(t: Tables, now: int): (ids: set<int>)
    ensures forall id :: id in ids <==> ListedIntended(t, id, now)
  {
    set id | id in t.projects && ListedIntended(t, id, now)
  }

  /**
   * As written, stamping a project with the time of a reminder does not stop
   * the next poll from listing it again: while the boundary that made it due
   * still lies ahead, it is listed at every later poll.
   */
  lemma {:induction false} AsWrittenRepeats(t: Tables, id: int, k: int, t0: int, t1: int)
    requires Consistent(t) && ListedAsWritten(t, id, t0)
    requires 0 <= k < |HoursOf(t, id)|
    requires t0 < t1 <= t.projects[id].deadline.value - HoursOf(t, id)[k] * Hour
    ensures ListedAsWritten(AfterSetLastNotification(t, id, t0), id, t1)
  {
    var t' := AfterSetLastNotification(t, id, t0);
    assert HoursOf(t', id) == HoursOf(t, id);
    assert HoursOf(t, id)[k] > 0;
    assert DueAsWritten(t'.projects[id].deadline.value, Some(t0), HoursOf(t', id)[k], t1);
  }

  /** A store with one project whose deadline is 5 hours after time 0, owned by a user with hours [24, 6, 1]. */
  function FiveHourExample(): (t: Tables)
    ensures Consistent(t)
  {
    Tables(map[1 := Project("report", 7, Some(5 * Hour), None)], {}, {7},
           map[7 := Settings(Some(true), Some([24, 6, 1]))], map[], 2)
  }

  /** The concrete double reminder: listed at time 0, stamped, and listed again 30 minutes later. */
  lemma AsWrittenRepeatExample()
    ensures ListedAsWritten(FiveHourExample(), 1, 0)
    ensures ListedAsWritten(AfterSetLastNotification(FiveHourExample(), 1, 0), 1, 1800)
  {
    var t := FiveHourExample();
    assert HoursOf(t, 1)[2] == 1;
    assert DueAsWritten(5 * Hour, None, HoursOf(t, 1)[2], 0);
    AsWrittenRepeats(t, 1, 2, 0, 1800);
  }

  /**
   * With the corrected test a stamped project is listed again only once one of
   * its boundaries falls after the stamp and no later than now.
   */
  lemma IntendedNoRepeat(t: Tables, id: int, t0: int, t1: int)
    requires Joinable(t, id) && t.projects[id].lastNotificationSent == Some(t0)
    requires forall i :: 0 <= i < |HoursOf(t, id)| ==>
               !(t0 < t.projects[id].deadline.value - HoursOf(t, id)[i] * Hour <= t1)
    ensures !ListedIntended(t, id, t1)
  {
  }

  /**
   * The five-hour example under the corrected test: due at time 0 (the 6-hour
   * boundary has passed), not due 30 minutes after being stamped, and due
   * again when the 1-hour boundary is reached.
   */
  lemma IntendedExample()
    ensures ListedIntended(FiveHourExample(), 1, 0)
    ensures !ListedIntended(AfterSetLastNotification(FiveHourExample(), 1, 0), 1, 1800)
    ensures ListedIntended(AfterSetLastNotification(FiveHourExample(), 1, 0), 1, 4 * Hour)
  {
    var t := FiveHourExample();
    var t' := AfterSetLastNotification(t, 1, 0);
    assert HoursOf(t, 1) == [24, 6, 1] && HoursOf(t', 1) == [24, 6, 1];
    assert DueIntended(5 * Hour, None, HoursOf(t, 1)[1], 0);
    IntendedNoRepeat(t', 1, 0, 1800);
    assert DueIntended(5 * Hour, Some(0), HoursOf(t', 1)[2], 4 * Hour);
  }

  /**
   * The tables and the methods of the `Database` class. Each method issues
   * the statements of its source counterpart in order and leaves the tables as
   * the matching `After...` function says.
   */
  class Database {
    var projects: map<int, Project>
    var members: set<(int, int)>
    var users: set<int>
    var settings: map<int, Settings>
    var invites: map<string, Invite>
    var nextId: int

    function T(): Tables
      reads this
    {
      Tables(projects, members, users, settings, invites, nextId)
    }

    ghost predicate Valid()
      reads this
    {
      Consistent(T())
    }

    constructor ()
      ensures Valid() && T() == EmptyTables()
    {
      projects, members, users, settings, invites, nextId := map[], {}, {}, map[], map[], 1;
    }

    /** `user_exists`. */
    method UserExists(user: int) returns (found: bool)
      ensures found == (user in users)
    {
      found := user in users;
    }

    method AddUser(user: int)
      requires Valid()
      modifies this
      ensures Valid() && T() == AfterAddUser(old(T()), user)
    {
      users := users + {user};
    }

    method CreateProject(title: string, creatorId: int) returns (id: int)
      requires Valid()
      modifies this
      ensures Valid()
      ensures id == old(nextId) && id !in old(projects)
      ensures T() == AfterCreate(old(T()), title, creatorId)
    {
      id := nextId;
      projects := projects[id := Project(title, creatorId, None, None)];
      nextId := nextId + 1;
    }

    method GetUserProjects(user: int) returns (rows: seq<ProjectRow>)
      ensures rows == UserProjects(T(), user)
      ensures forall i :: 0 <= i < |rows| ==> Owns(T(), rows[i].id, user)
    {
      rows := UserProjects(T(), user);
    }

    method DeleteProject(projectId: int, userId: int) returns (ok: bool)
      requires Valid()
      modifies this
      ensures Valid()
      ensures ok == Owns(old(T()), projectId, userId)
      ensures T() == AfterDelete(old(T()), projectId, userId)
    {
      if !(projectId in projects && projects[projectId].creator == userId) {
        return false;
      }
      members := set m | m in members && m.0 != projectId;
      projects := projects - {projectId};
      ok := true;
    }

    method AddMember(projectId: int, userId: int, creatorId: int) returns (ok: bool)
      requires Valid()
      modifies this
      ensures Valid()
      ensures ok == (Owns(old(T()), projectId, creatorId) && userId in old(users))
      ensures T() == AfterAddMember(old(T()), projectId, userId, creatorId)
    {
      if !(projectId in projects && projects[projectId].creator == creatorId) {
        return false;
      }
      var known := UserExists(userId);
      if !known {
        return false;
      }
      members := members + {(projectId, userId)};
      ok := true;
    }

    method SetDeadline(projectId: int, deadline: int, creatorId: int) returns (ok: bool)
      requires Valid()
      modifies this
      ensures Valid()
      ensures ok == Owns(old(T()), projectId, creatorId)
      ensures T() == AfterSetDeadline(old(T()), projectId, deadline, creatorId)
    {
      if !(projectId in projects && projects[projectId].creator == creatorId) {
        return false;
      }
      projects := projects[projectId := projects[projectId].(deadline := Some(deadline))];
      ok := true;
    }

    method GetNotificationSettings(user: int) returns (r: Option<Settings>)
      requires Valid()
      ensures r == SettingsOf(T(), user)
      ensures r.Some? && r.value.reminderHours.Some? ==> ValidHours(r.value.reminderHours.value)
    {
      r := if user in settings then Some(settings[user]) else None;
    }

    /** Returns false where the source raises ValueError: nothing has been written then. */
    method UpdateNotificationSettings(user: int, enable: Option<bool>, hours: Option<seq<int>>) returns (ok: bool)
      requires Valid()
      modifies this
      ensures Valid()
      ensures ok == (hours.None? || ValidHours(hours.value))
      ensures T() == AfterUpdateSettings(old(T()), user, enable, hours)
    {
      if hours.Some? {
        if |hours.value| == 0 {
          return false;
        }
        if !(forall i :: 0 <= i < |hours.value| ==> hours.value[i] > 0) {
          return false;
        }
      }
      var prev := if user in settings then Some(settings[user]) else None;
      settings := settings[user := Upserted(prev, enable, hours)];
      ok := true;
    }

    method GetProjectsNearDeadline(now: int) returns (rows: seq<Reminder>)
      ensures rows == NearDeadline(T(), now)
    {
      rows := NearDeadline(T(), now);
    }

    method SetLastNotification(projectId: int, ts: int)
      requires Valid()
      modifies this
      ensures Valid() && T() == AfterSetLastNotification(old(T()), projectId, ts)
    {
      if projectId in projects {
        projects := projects[projectId := projects[projectId].(lastNotificationSent := Some(ts))];
      }
    }

    method SetUnikey(key: string, active: bool, answer: bool)
      requires Valid()
      modifies this
      ensures Valid() && T() == AfterSetUnikey(old(T()), key, active, answer)
    {
      invites := invites[key := Invite(active, answer)];
    }

    method UnikeyIsActive(key: string) returns (valid: bool)
      ensures valid == InviteActive(T(), key)
    {
      valid := key in invites && invites[key].active;
    }

    method CheckUnikey(key: string) returns (valid: bool)
      ensures valid == InviteAccepted(T(), key)
    {
      if !(key in invites && invites[key].active) {
        return false;
      }
      var record := invites[key];
      valid := record.active && record.answer;
    }
  }
}
