/**
 * The task list of `NotificationsPanel` (src/components/NotificationsPanel.tsx):
 * appointments and reminders fetched from the backend are combined into one
 * list, expired appointments are pruned every 30 seconds, reminders are added
 * and deleted, and the first two tasks are shown unless the list is expanded.
 *
 * Dates are integer time stamps in milliseconds; what the backend answered is
 * an argument of each method.
 */
module Notifications {
  import opened Common

  datatype Kind = Reminder | Appointment

  /**
   * A task's `dateTime` as the pruning reads it: absent or empty, a string that
   * `new Date` cannot parse (its time is NaN), or a time stamp.
   */
  datatype Stamp = Missing | Invalid | At(ms: int)

  datatype Task = Task(id: string, title: string, kind: Kind, dateTime: Stamp)

  /** An appointment as fetched; `when` is `${date}T${time}` parsed, if it parses. */
  datatype AppointmentRecord = AppointmentRecord(id: string, when: Option<int>)

  /** A reminder as fetched. */
  datatype ReminderRecord = ReminderRecord(id: string, title: string, dateTime: Stamp)

  const AppointmentTitle := "Doctor Appointment"

  /** `${date}T${time}` is never empty, so it is a time stamp or an invalid date. */
  function ParsedStamp(when: Option<int>): (s: Stamp)
    ensures s != Missing
  {
    match when
    case Some(t) => At(t)
    case None => Invalid
  }

  /**
   * `[...appointments, ...reminders]`: all appointments then all reminders, each
   * group in the order fetched.
   */
  function Combine(appts: seq<AppointmentRecord>, rems: seq<ReminderRecord>): (r: seq<Task>)
    ensures |r| == |appts| + |rems|
    ensures forall i :: 0 <= i < |appts| ==>
      r[i].kind == Appointment && r[i].title == AppointmentTitle && r[i].id == appts[i].id
      && r[i].dateTime == ParsedStamp(appts[i].when)
    ensures forall j :: 0 <= j < |rems| ==>
      r[|appts| + j] == Task(rems[j].id, rems[j].title, Reminder, rems[j].dateTime)
  {
    seq(|appts|, i requires 0 <= i < |appts| =>
          Task(appts[i].id, AppointmentTitle, Appointment, ParsedStamp(appts[i].when)))
    + seq(|rems|, j requires 0 <= j < |rems| =>
          Task(rems[j].id, rems[j].title, Reminder, rems[j].dateTime))
  }

  /** The filter of the interval: appointments with a date must lie after `now`. */
  predicate Keep(t: Task, now: int)
  {
    if t.kind == Appointment && t.dateTime != Missing then t.dateTime.At? && t.dateTime.ms > now
    else true
  }

  /** `prev.filter(...)` of the 30-second interval. */
  function Prune(ts: seq<Task>, now: int): seq<Task>
  {
    if ts == [] then []
    else (if Keep(ts[0], now) then [ts[0]] else []) + Prune(ts[1..], now)
  }

  /**
   * Pruning removes exactly the dated appointments that are not after `now`
   * (an invalid date counts as not after): reminders and undated appointments stay.
   */
  lemma {:induction false} PruneMembers(ts: seq<Task>, now: int)
    ensures forall t :: t in Prune(ts, now) <==> t in ts && Keep(t, now)
    ensures forall t :: t in ts && t.kind == Reminder ==> t in Prune(ts, now)
  {
    if ts != [] {
      PruneMembers(ts[1..], now);
      assert ts == [ts[0]] + ts[1..];
    }
  }

  /** Pruning keeps the relative order: it distributes over concatenation. */
  lemma {:induction false} PruneAppend(a: seq<Task>, b: seq<Task>, now: int)
    ensures Prune(a + b, now) == Prune(a, now) + Prune(b, now)
  {
    if a != [] {
      assert (a + b)[1..] == a[1..] + b;
      PruneAppend(a[1..], b, now);
    } else {
      assert a + b == b;
    }
  }

  /** A list whose tasks all pass the filter is left as it is. */
  lemma {:induction false} PruneKeepsAll(ts: seq<Task>, now: int)
    requires forall i :: 0 <= i < |ts| ==> Keep(ts[i], now)
    ensures Prune(ts, now) == ts
  {
    if ts != [] {
      PruneKeepsAll(ts[1..], now);
    }
  }

  /** For a fixed `now`, pruning twice is pruning once. */
  lemma PruneIdempotent(ts: seq<Task>, now: int)
    ensures Prune(Prune(ts, now), now) == Prune(ts, now)
  {
    var p := Prune(ts, now);
    PruneMembers(ts, now);
    forall i | 0 <= i < |p| ensures Keep(p[i], now) {
      assert p[i] in p;
    }
    PruneKeepsAll(p, now);
  }

  /** The index of the first task with that id, or -1. */
  function FirstIndex(ts: seq<Task>, id: string): (r: int)
    ensures r == -1 <==> forall i :: 0 <= i < |ts| ==> ts[i].id != id
    ensures r != -1 ==> 0 <= r < |ts| && ts[r].id == id && forall j :: 0 <= j < r ==> ts[j].id != id
  {
    if ts == [] then -1
    else if ts[0].id == id then 0
    else
      var r := FirstIndex(ts[1..], id);
      if r == -1 then -1 else r + 1
  }

  /** `tasks.find((t) => t.id === id)`. */
  function FindById(ts: seq<Task>, id: string): Option<Task>
  {
    var i := FirstIndex(ts, id);
    if i == -1 then None else Some(ts[i])
  }

  /** `prev.filter((task) => task.id !== id)`. */
  function RemoveId(ts: seq<Task>, id: string): seq<Task>
  {
    if ts == [] then []
    else (if ts[0].id != id then [ts[0]] else []) + RemoveId(ts[1..], id)
  }

  /** Deleting removes every task with that id and keeps every other task. */
  lemma {:induction false} RemoveIdMembers(ts: seq<Task>, id: string)
    ensures forall t :: t in RemoveId(ts, id) <==> t in ts && t.id != id
  {
    if ts != [] {
      RemoveIdMembers(ts[1..], id);
      assert ts == [ts[0]] + ts[1..];
    }
  }

  /** Deleting keeps the relative order: it distributes over concatenation. */
  lemma {:induction false} RemoveIdAppend(a: seq<Task>, b: seq<Task>, id: string)
    ensures RemoveId(a + b, id) == RemoveId(a, id) + RemoveId(b, id)
  {
    if a != [] {
      assert (a + b)[1..] == a[1..] + b;
      RemoveIdAppend(a[1..], b, id);
    } else {
      assert a + b == b;
    }
  }

  /** A task list with no task of that id is left as it is. */
  lemma {:induction false} RemoveIdAbsent(ts: seq<Task>, id: string)
    requires forall i :: 0 <= i < |ts| ==> ts[i].id != id
    ensures RemoveId(ts, id) == ts
  {
    if ts != [] {
      RemoveIdAbsent(ts[1..], id);
    }
  }

  /** `showAll ? tasks : tasks.slice(0, 2)`. */
  function Visible(ts: seq<Task>, showAll: bool): (r: seq<Task>)
    ensures showAll ==> r == ts
    ensures !showAll ==> |r| == (if |ts| < 2 then |ts| else 2) && r == ts[..|r|]
  {
    if showAll then ts else ts[..if |ts| < 2 then |ts| else 2]
  }

  /** The "Show More" toggle is offered for more than two tasks. */
  predicate ToggleOffered(ts: seq<Task>)
  {
    |ts| > 2
  }

  /** The toggle is offered exactly when it changes what is shown. */
  lemma ToggleOfferedWhenItMatters(ts: seq<Task>)
    ensures ToggleOffered(ts) <==> Visible(ts, true) != Visible(ts, false)
  {
    if ToggleOffered(ts) {
      assert |Visible(ts, false)| == 2;
    }
  }

  /** Why `addTask` gives up before saving anything. */
  datatype AddCheck = Ready | MissingInput | MissingToken

  /** The two guards of `addTask`, in their order. */
  function CheckAdd(title: string, dateTime: string, token: Option<string>): (r: AddCheck)
    ensures r == Ready <==> !IsBlank(title) && dateTime != "" && token.Some? && token.value != ""
    ensures r == MissingInput <==> IsBlank(title) || dateTime == ""
  {
    if IsBlank(title) || dateTime == "" then MissingInput
    else if token.None? || token.value == "" then MissingToken
    else Ready
  }

  /** The component's state. */
  class Panel {
    var tasks: seq<Task>
    var newTitle: string
    var newDateTime: string
    var showAll: bool
    var isAdding: bool

    constructor ()
      ensures tasks == [] && newTitle == "" && newDateTime == "" && !showAll && !isAdding
    {
      tasks := [];
      newTitle := "";
      newDateTime := "";
      showAll := false;
      isAdding := false;
    }

    /**
     * The end of `fetchData`: both lists fetched replace the tasks; a failed
     * fetch (`None`) leaves them as they were.
     */
    method OnFetched(appts: Option<seq<AppointmentRecord>>, rems: Option<seq<ReminderRecord>>)
      modifies this
      ensures appts.Some? && rems.Some? ==> tasks == Combine(appts.value, rems.value)
      ensures appts.None? || rems.None? ==> tasks == old(tasks)
      ensures newTitle == old(newTitle) && newDateTime == old(newDateTime)
      ensures showAll == old(showAll) && isAdding == old(isAdding)
    {
      if appts.None? || rems.None? {
        return;
      }
      tasks := Combine(appts.value, rems.value);
    }

    /** The 30-second interval at time `now`. */
    method OnInterval(now: int)
      modifies this`tasks
      ensures tasks == Prune(old(tasks), now)
    {
      tasks := Prune(tasks, now);
    }

    /** The title input's `onChange`. */
    method SetTitle(value: string)
      modifies this`newTitle
      ensures newTitle == value
    {
      newTitle := value;
    }

    /** The date/time input's `onChange`. */
    method SetDateTime(value: string)
      modifies this`newDateTime
      ensures newDateTime == value
    {
      newDateTime := value;
    }

    /**
     * `addTask`. `token` is the stored token; `saved` is the backend's answer:
     * `None` when the request failed, otherwise the new reminder's id and its
     * date and time, if they parse.
     */
    method AddTask(token: Option<string>, saved: Option<(string, Option<int>)>) returns (check: AddCheck)
      modifies this
      ensures check == CheckAdd(old(newTitle), old(newDateTime), token)
      ensures showAll == old(showAll)
      ensures check != Ready ==>
        tasks == old(tasks) && newTitle == old(newTitle) && newDateTime == old(newDateTime)
        && isAdding == old(isAdding)
      ensures check == Ready ==> !isAdding
      ensures check == Ready && saved.None? ==>
        tasks == old(tasks) && newTitle == old(newTitle) && newDateTime == old(newDateTime)
      ensures check == Ready && saved.Some? ==>
        && tasks == old(tasks) + [Task(saved.value.0, old(newTitle), Reminder, ParsedStamp(saved.value.1))]
        && newTitle == "" && newDateTime == ""
    {
      check := CheckAdd(newTitle, newDateTime, token);
      if check != Ready {
        return;
      }
      isAdding := true;
      if saved.Some? {
        var savedReminder := Task(saved.value.0, newTitle, Reminder, ParsedStamp(saved.value.1));
        tasks := tasks + [savedReminder];
        newTitle := "";
        newDateTime := "";
      }
      isAdding := false;
    }

    /**
     * `deleteTask(id)`: only when the first task with that id is a reminder is
     * the backend asked; `deleted` is whether it answered with success.
     */
    method DeleteTask(id: string, deleted: bool)
      modifies this`tasks
      ensures var found := FindById(old(tasks), id);
        tasks == if found.Some? && found.value.kind == Reminder && deleted
                 then RemoveId(old(tasks), id) else old(tasks)
    {
      var taskToDelete := FindById(tasks, id);
      if taskToDelete.None? || taskToDelete.value.kind != Reminder {
        return;
      }
      if !deleted {
        return;
      }
      tasks := RemoveId(tasks, id);
    }

    /** The "Show More" / "Show Less" button, rendered for more than two tasks. */
    method ToggleShowAll()
      requires ToggleOffered(tasks)
      modifies this`showAll
      ensures showAll == !old(showAll)
    {
      showAll := !showAll;
    }

    /** `visibleTasks`. */
    function VisibleTasks(): (r: seq<Task>)
      reads this
      ensures |r| <= |tasks| && r == tasks[..|r|]
      ensures !showAll ==> |r| <= 2
    {
      Visible(tasks, showAll)
    }
  }

  /**
   * A successful add followed by the deletion of the new reminder's id, when no
   * earlier task had that id, gives back the list from before.
   */
  lemma AddThenDelete(ts: seq<Task>, t: Task)
    requires t.kind == Reminder
    requires forall i :: 0 <= i < |ts| ==> ts[i].id != t.id
    ensures FindById(ts + [t], t.id) == Some(t)
    ensures RemoveId(ts + [t], t.id) == ts
  {
    var s := ts + [t];
    assert s[|ts|] == t;
    assert FirstIndex(s, t.id) == |ts|;
    RemoveIdAppend(ts, [t], t.id);
    RemoveIdAbsent(ts, t.id);
    assert RemoveId([t], t.id) == [] + RemoveId([t][1..], t.id);
  }
}
