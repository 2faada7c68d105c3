/**
 * The bot's keyboards (keyboards.py), kept as what the handlers see of them:
 * the texts of reply-keyboard buttons and the (text, callback data) pairs of
 * inline buttons, row by row. Inline buttons carry `f"{prefix}{id}"` and the
 * handlers read the number back with `int(data.split("_")[-1])`.
 */
module Keyboards {
  import opened Wrappers
  import opened Text

  /** An inline button: its label and its callback data. */
  datatype Button = Button(text: string, data: string)

  const CreateProjectText := "Создать проект"
  const MyProjectsText := "Мои проекты"
  const NotificationSettingsText := "Настройки уведомлений"
  const CancelText := "Отмена"
  const EnableText := "Включить уведомления"
  const DisableText := "Отключить уведомления"
  const ChooseIntervalsText := "Выбрать интервалы"
  const BackText := "Назад"

  const DeleteProjectPrefix := "delete_project_"
  const AddMemberPrefix := "add_member_"
  const SetDeadlinePrefix := "set_deadline_"
  const ConfirmDeletePrefix := "confirm_delete_"
  const CancelDeletionData := "cancel_deletion"
  const ReminderTogglePrefix := "reminder_toggle_"
  const ReminderSaveData := "reminder_save"

  /** The hours offered by the reminder keyboard. */
  const ReminderHours: seq<int> := [1, 2, 6, 12, 24]

  /**
   * What the `Command` filter reads: `message.text or message.caption`; None
   * when both are missing or empty, in which case the filter fails.
   */
  function CommandText(text: Option<string>, caption: Option<string>): (r: Option<string>)
    ensures r.Some? ==> r.value != [] && (r == text || r == caption)
    ensures text.Some? && text.value != [] ==> r == text
    ensures r.None? <==> (text.None? || text.value == []) && (caption.None? || caption.value == [])
  {
    if text.Some? && text.value != [] then text
    else if caption.Some? && caption.value != [] then caption
    else None
  }

  /** The leading run of non-whitespace characters of `s`. */
  function LeadingWord(s: string): (w: string)
    ensures |w| <= |s| && w == s[..|w|]
    ensures forall i :: 0 <= i < |w| ==> !IsSpace(w[i])
    ensures |w| == |s| || IsSpace(s[|w|])
  {
    if s == [] || IsSpace(s[0]) then []
    else
      var w := [s[0]] + LeadingWord(s[1..]);
      assert s[..|w|] == [s[0]] + s[1..][..|w| - 1];
      w
  }

  /** `text.split(maxsplit=1)[0]`: the first whitespace-separated word; empty when the text is blank. */
  function FirstWord(text: string): string
  {
    LeadingWord(TrimStart(text))
  }

  /**
   * The `Command("start")` test on the text it reads, computed on characters:
   * once leading whitespace is gone, the text begins with `/start` followed by
   * nothing, whitespace or `@`. `StartCommandWord` shows this is the test on
   * the first word.
   */
  predicate IsStartCommand(text: string)
  {
    var s := TrimStart(text);
    StartsWith(s, "/start") && (|s| == 6 || IsSpace(s[6]) || s[6] == '@')
  }

  /** The filter's own test: the first word is `/start`, or `/start@` followed by a mention. */
  lemma StartCommandWord(text: string)
    ensures var w := FirstWord(text); IsStartCommand(text) <==> w == "/start" || StartsWith(w, "/start@")
  {
    StartWord(TrimStart(text));
  }

  /** The first word of a text that starts with `/start` is `/start` exactly when no other character follows before whitespace. */
  lemma StartWord(s: string)
    ensures var w := LeadingWord(s);
      (w == "/start" || StartsWith(w, "/start@")) <==>
      StartsWith(s, "/start") && (|s| == 6 || IsSpace(s[6]) || s[6] == '@')
  {
    var w := LeadingWord(s);
    var cmd := "/start";
    if StartsWith(s, cmd) {
      StartHasNoSpace();
      forall i | 0 <= i < 6
        ensures !IsSpace(s[i])
      {
        assert s[i] == s[..6][i] == cmd[i];
      }
      LeadingWordCovers(s, 6);
      assert w[..6] == s[..|w|][..6] == s[..6];
      if |s| == 6 || IsSpace(s[6]) {
        LeadingWordStops(s, 6);
        assert w == w[..6] == cmd;
      } else {
        forall i | 0 <= i < 7
          ensures !IsSpace(s[i])
        {
          if i < 6 {
            assert s[i] == s[..6][i] == cmd[i];
          }
        }
        LeadingWordCovers(s, 7);
        assert w[..7] == s[..7];
        if s[6] == '@' {
          assert s[..7] == "/start@";
          assert StartsWith(w, "/start@");
        } else {
          assert |w| != |cmd|;
          assert !StartsWith(w, "/start@") by {
            assert w[..7][6] == s[6] != '@';
          }
        }
      }
    }
    if w == cmd || StartsWith(w, "/start@") {
      assert w[..6] == cmd by {
        if w != cmd {
          assert w[..6] == w[..7][..6];
        }
      }
      assert s[..6] == w[..6];
    }
  }

  lemma StartHasNoSpace()
    ensures forall i :: 0 <= i < 6 ==> !IsSpace("/start"[i])
  {
    var cmd := "/start";
    assert cmd[0] == '/' && cmd[1] == 's' && cmd[2] == 't' && cmd[3] == 'a' && cmd[4] == 'r' && cmd[5] == 't';
  }

  /** A leading run of `n` non-whitespace characters lies inside the first word. */
  lemma {:induction false} LeadingWordCovers(s: string, n: nat)
    requires n <= |s| && forall i :: 0 <= i < n ==> !IsSpace(s[i])
    ensures |LeadingWord(s)| >= n
  {
    if n > 0 {
      LeadingWordCovers(s[1..], n - 1);
    }
  }

  /** The first word ends at the first whitespace. */
  lemma {:induction false} LeadingWordStops(s: string, n: nat)
    requires n <= |s| && (n == |s| || IsSpace(s[n]))
    ensures |LeadingWord(s)| <= n
  {
    if n > 0 && !IsSpace(s[0]) {
      LeadingWordStops(s[1..], n - 1);
    }
  }

  /** The `Command("start")` filter on a whole message. */
  predicate StartFilter(text: Option<string>, caption: Option<string>)
  {
    var t := CommandText(text, caption);
    t.Some? && IsStartCommand(t.value)
  }

  /** A text whose first character is neither a slash nor whitespace is no command. */
  lemma NotCommand(text: string)
    requires text != [] && text[0] != '/' && !IsSpace(text[0])
    ensures !IsStartCommand(text)
  {
    assert TrimStart(text) == text;
  }

  /** A plain message whose text starts with neither a slash nor whitespace does not pass the filter. */
  lemma NotStartText(text: string)
    requires text != [] && text[0] != '/' && !IsSpace(text[0])
    ensures !StartFilter(Some(text), None)
  {
    NotCommand(text);
  }

  /** On a text that starts with neither whitespace nor nothing, the filter reads its opening characters. */
  lemma StartTextFilter(t: string)
    requires t != [] && !IsSpace(t[0])
    ensures StartFilter(Some(t), None) <==> StartsWith(t, "/start") && (|t| == 6 || IsSpace(t[6]) || t[6] == '@')
    ensures StartFilter(None, Some(t)) <==> StartFilter(Some(t), None)
  {
    assert CommandText(Some(t), None) == CommandText(None, Some(t)) == Some(t);
    assert TrimStart(t) == t;
  }

  /** `/start` passes the filter alone, or as the caption of a message without text. */
  lemma StartAlone()
    ensures StartFilter(Some("/start"), None)
    ensures StartFilter(None, Some("/start"))
  {
    var a := "/start";
    assert a[0] == '/' && |a| == 6 && a[..6] == a;
    StartTextFilter(a);
    assert StartFilter(Some(a), None);
  }

  /** Arguments may follow `/start` after any whitespace, a line break included. */
  lemma StartWithArguments()
    ensures StartFilter(Some("/start\nabc"), None)
  {
    var b := "/start\nabc";
    assert b[0] == '/' && b[6] == '\n' && b[..6] == "/start";
    StartTextFilter(b);
  }

  /** Leading whitespace is skipped before the command word. */
  lemma StartSkipsSpace(t: string)
    requires t != [] && IsSpace(t[0])
    ensures StartFilter(Some(t), None) <==> StartFilter(Some(t[1..]), None)
  {
    assert TrimStart(t) == TrimStart(t[1..]);
  }

  /** `" /start"` passes: the command need not open the text. */
  lemma StartAfterSpace()
    ensures StartFilter(Some(" /start"), None)
  {
    var c := " /start";
    assert IsSpace(c[0]) && c[1..] == "/start";
    StartSkipsSpace(c);
    StartAlone();
  }

  /** A longer word is another command. */
  lemma StartedIsNoStart()
    ensures !StartFilter(Some("/started"), None)
  {
    var d := "/started";
    assert d[0] == '/' && d[6] == 'e';
    StartTextFilter(d);
  }

  /** `get_main_kb`: three one-button rows with distinct texts, none of which the `/start` filter takes. */
  function MainKb(): (r: seq<seq<string>>)
    ensures |r| == 3 && |r[0]| == 1 && |r[1]| == 1 && |r[2]| == 1
    ensures !IsStartCommand(r[0][0]) && !IsStartCommand(r[1][0]) && !IsStartCommand(r[2][0])
    ensures r[0][0] != r[1][0] && r[0][0] != r[2][0] && r[1][0] != r[2][0]
  {
    NotCommand(CreateProjectText);
    NotCommand(MyProjectsText);
    NotCommand(NotificationSettingsText);
    [[CreateProjectText], [MyProjectsText], [NotificationSettingsText]]
  }

  /** `get_cancel_kb`: one button, no command, with no whitespace at its ends. */
  function CancelKb(): (r: seq<seq<string>>)
    ensures |r| == 1 && |r[0]| == 1 && !IsStartCommand(r[0][0])
    ensures var b := r[0][0]; b != [] && !IsSpace(b[0]) && !IsSpace(b[|b| - 1])
  {
    NotCommand(CancelText);
    assert CancelText[5] == 'а';
    [[CancelText]]
  }

  /** `get_notifications_kb`: two rows of two buttons with distinct texts, none of which the `/start` filter takes. */
  function NotificationsKb(): (r: seq<seq<string>>)
    ensures |r| == 2 && |r[0]| == 2 && |r[1]| == 2
    ensures !IsStartCommand(r[0][0]) && !IsStartCommand(r[0][1])
    ensures !IsStartCommand(r[1][0]) && !IsStartCommand(r[1][1])
    ensures r[0][0] != r[0][1] && r[0][0] != r[1][0] && r[0][0] != r[1][1]
    ensures r[0][1] != r[1][0] && r[0][1] != r[1][1] && r[1][0] != r[1][1]
  {
    NotCommand(EnableText);
    NotCommand(DisableText);
    NotCommand(ChooseIntervalsText);
    NotCommand(BackText);
    [[EnableText, DisableText], [ChooseIntervalsText, BackText]]
  }

  /** `f"{prefix}{id}"`. */
  function Encode(prefix: string, id: int): string
  {
    prefix + IntToString(id)
  }

  /**
   * `int(data.split("_")[-1])`; None where Python raises ValueError. The
   * number is read from the text after the last underscore, and only from it.
   */
  function DecodeId(data: string): (r: Option<int>)
    ensures forall k :: 0 <= k <= |data| && (k == 0 || data[k - 1] == '_') && '_' !in data[k..] ==>
      r == ParseInt(data[k..])
  {
    var seg := LastSegment(data);
    forall k | 0 <= k <= |data| && (k == 0 || data[k - 1] == '_') && '_' !in data[k..]
      ensures data[k..] == seg
    {
      LastSegmentAt(data, k);
    }
    ParseInt(seg)
  }

  /** Only one suffix follows an underscore (or is everything) and holds none: the last segment. */
  lemma LastSegmentAt(data: string, k: nat)
    requires k <= |data| && (k == 0 || data[k - 1] == '_') && '_' !in data[k..]
    ensures data[k..] == LastSegment(data)
  {
  }

  /** Decoding undoes encoding for every id, whenever the prefix ends in an underscore. */
  lemma EncodeDecode(prefix: string, id: int)
    requires prefix != [] && prefix[|prefix| - 1] == '_'
    ensures DecodeId(Encode(prefix, id)) == Some(id)
    ensures StartsWith(Encode(prefix, id), prefix)
  {
    LastSegmentOfSuffix(prefix, IntToString(id));
    IntRoundTrip(id);
  }

  /** `get_project_actions_kb`: three one-button rows (delete, add member, set deadline) for one project. */
  function ProjectActionsKb(id: int): (r: seq<seq<Button>>)
    ensures |r| == 3 && |r[0]| == 1 && |r[1]| == 1 && |r[2]| == 1
    ensures r[0][0].data == Encode(DeleteProjectPrefix, id)
    ensures r[1][0].data == Encode(AddMemberPrefix, id)
    ensures r[2][0].data == Encode(SetDeadlinePrefix, id)
  {
    [[Button("Удалить проект", Encode(DeleteProjectPrefix, id))],
     [Button("Добавить участника", Encode(AddMemberPrefix, id))],
     [Button("Установить дедлайн", Encode(SetDeadlinePrefix, id))]]
  }

  /** Each action button's data names its action, and the handlers read back the project id from it. */
  lemma ProjectActionsKbDecodes(id: int)
    ensures var r := ProjectActionsKb(id);
      && StartsWith(r[0][0].data, DeleteProjectPrefix) && DecodeId(r[0][0].data) == Some(id)
      && StartsWith(r[1][0].data, AddMemberPrefix) && DecodeId(r[1][0].data) == Some(id)
      && StartsWith(r[2][0].data, SetDeadlinePrefix) && DecodeId(r[2][0].data) == Some(id)
  {
    EncodeDecode(DeleteProjectPrefix, id);
    EncodeDecode(AddMemberPrefix, id);
    EncodeDecode(SetDeadlinePrefix, id);
  }

  function ActionButton(caption: string, prefix: string, id: int): (b: Button)
    requires prefix != [] && prefix[|prefix| - 1] == '_'
    ensures StartsWith(b.data, prefix) && DecodeId(b.data) == Some(id)
  {
    EncodeDecode(prefix, id);
    Button(caption, Encode(prefix, id))
  }

  /** `get_confirm_deletion_kb`: confirm (decoding to the id), then cancel. */
  function ConfirmDeletionKb(id: int): (r: seq<seq<Button>>)
    ensures |r| == 2 && |r[0]| == 1 && |r[1]| == 1
    ensures StartsWith(r[0][0].data, ConfirmDeletePrefix) && DecodeId(r[0][0].data) == Some(id)
    ensures r[1][0].data == CancelDeletionData
  {
    [[ActionButton("Да, удалить", ConfirmDeletePrefix, id)],
     [Button("Отменить", CancelDeletionData)]]
  }

  function Concat<T>(rows: seq<seq<T>>): seq<T>
  {
    if rows == [] then [] else rows[0] + Concat(rows[1..])
  }

  /**
   * `xs[i:i+n]` for `i` in `range(0, len(xs), n)`: rows of at most `n`, all full
   * but the last, that put back together give `xs`.
   */
  function Chunks<T>(xs: seq<T>, n: nat): (rows: seq<seq<T>>)
    requires n > 0
    ensures Concat(rows) == xs
    ensures forall i :: 0 <= i < |rows| ==> 0 < |rows[i]| <= n
    ensures forall i :: 0 <= i < |rows| - 1 ==> |rows[i]| == n
    decreases |xs|
  {
    if xs == [] then []
    else if |xs| <= n then
      assert Concat([xs]) == xs + Concat([]);
      [xs]
    else
      var rest := Chunks(xs[n..], n);
      assert ([xs[..n]] + rest)[1..] == rest;
      assert xs == xs[..n] + xs[n..];
      [xs[..n]] + rest
  }

  /** One hour button: `f"{h} ч"`, data `f"reminder_toggle_{h}"`, which decodes back to `h`. */
  function HourButton(h: int): (b: Button)
    ensures StartsWith(b.data, ReminderTogglePrefix) && DecodeId(b.data) == Some(h)
  {
    ActionButton(IntToString(h) + " ч", ReminderTogglePrefix, h)
  }

  function HourButtons(hours: seq<int>): (r: seq<Button>)
    ensures |r| == |hours| && forall k :: 0 <= k < |r| ==> r[k] == HourButton(hours[k])
  {
    seq(|hours|, k requires 0 <= k < |hours| => HourButton(hours[k]))
  }

  /**
   * `get_reminder_kb`: rows of at most three hour buttons that together are
   * the buttons for 1, 2, 6, 12 and 24 in that order, then one save row.
   */
  function ReminderKb(): (r: seq<seq<Button>>)
    ensures |r| >= 1 && r[|r| - 1] == [Button("Сохранить", ReminderSaveData)]
    ensures forall i :: 0 <= i < |r| - 1 ==> 0 < |r[i]| <= 3
    ensures Concat(r[..|r| - 1]) == HourButtons(ReminderHours)
  {
    var rows := Chunks(HourButtons(ReminderHours), 3);
    var r := rows + [[Button("Сохранить", ReminderSaveData)]];
    assert r[..|r| - 1] == rows;
    r
  }

  /** The hours the reminder keyboard's buttons decode to are exactly 1, 2, 6, 12, 24, in order. */
  lemma ReminderKbDecodes()
    ensures var buttons := Concat(ReminderKb()[..|ReminderKb()| - 1]);
      && |buttons| == |ReminderHours|
      && forall k :: 0 <= k < |buttons| ==>
           StartsWith(buttons[k].data, ReminderTogglePrefix) && DecodeId(buttons[k].data) == Some(ReminderHours[k])
  {
  }
}
