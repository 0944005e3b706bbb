/** TaskManager.cs: the list of tasks, completed by their 1-based position
    among the tasks not completed yet. */
module Tasks {
  import opened Wrappers
  import opened Text
  import opened CyberTasks

  /** The tasks not yet completed, in insertion order. */
  function ActiveTasks(ts: seq<CyberTask>): (r: seq<CyberTask>)
    ensures |r| <= |ts|
    ensures forall i :: 0 <= i < |r| ==> !r[i].IsCompleted
  {
    if ts == [] then []
    else (if ts[0].IsCompleted then [] else [ts[0]]) + ActiveTasks(ts[1..])
  }

  /** The number of tasks not yet completed, the value GetActiveTaskCount returns. */
  function ActiveCount(ts: seq<CyberTask>): nat
  {
    if ts == [] then 0
    else (if ts[0].IsCompleted then 0 else 1) + ActiveCount(ts[1..])
  }

  /** The active list holds exactly the tasks not completed. */
  lemma {:induction false} ActiveTasksMembers(ts: seq<CyberTask>, t: CyberTask)
    ensures t in ActiveTasks(ts) <==> t in ts && !t.IsCompleted
  {
    if ts != [] {
      ActiveTasksMembers(ts[1..], t);
      assert t in ts <==> t == ts[0] || t in ts[1..];
    }
  }

  /** Counting the tasks not completed gives the length of the list of them. */
  lemma {:induction false} ActiveCountIsLength(ts: seq<CyberTask>)
    ensures ActiveCount(ts) == |ActiveTasks(ts)| <= |ts|
  {
    if ts != [] {
      ActiveCountIsLength(ts[1..]);
    }
  }

  /** Filtering keeps the order: the filter of a concatenation is the
      concatenation of the filters. */
  lemma {:induction false} ActiveTasksConcat(a: seq<CyberTask>, b: seq<CyberTask>)
    ensures ActiveTasks(a + b) == ActiveTasks(a) + ActiveTasks(b)
  {
    if a == [] {
      assert a + b == b;
    } else {
      assert (a + b)[0] == a[0] && (a + b)[1..] == a[1..] + b;
      ActiveTasksConcat(a[1..], b);
      var h := if a[0].IsCompleted then [] else [a[0]];
      assert ActiveTasks(a + b) == h + ActiveTasks(a[1..] + b);
      assert ActiveTasks(a) == h + ActiveTasks(a[1..]);
    }
  }

  /** The index in `ts` of the task shown at 0-based position `k` of the
      active list. */
  function ActivePosition(ts: seq<CyberTask>, k: nat): (p: nat)
    requires k < |ActiveTasks(ts)|
    ensures p < |ts| && !ts[p].IsCompleted && ActiveTasks(ts)[k] == ts[p]
    decreases |ts|
  {
    assert ActiveTasks(ts) == (if ts[0].IsCompleted then [] else [ts[0]]) + ActiveTasks(ts[1..]);
    if !ts[0].IsCompleted && k == 0 then 0
    else 1 + ActivePosition(ts[1..], if ts[0].IsCompleted then k else k - 1)
  }

  /** Exactly k active tasks come before that index. */
  lemma {:induction false} ActivePositionPrefix(ts: seq<CyberTask>, k: nat)
    requires k < |ActiveTasks(ts)|
    ensures |ActiveTasks(ts[..ActivePosition(ts, k)])| == k
    decreases |ts|
  {
    var p := ActivePosition(ts, k);
    if !ts[0].IsCompleted && k == 0 {
      assert ts[..p] == [];
    } else {
      var k' := if ts[0].IsCompleted then k else k - 1;
      var q := ActivePosition(ts[1..], k');
      assert p == q + 1;
      ActivePositionPrefix(ts[1..], k');
      PrefixOfTail(ts, q);
      ActiveTasksConcat([ts[0]], ts[1..][..q]);
      ActiveTasksSingleton(ts[0]);
      assert ActiveTasks(ts[..p]) == ActiveTasks([ts[0]]) + ActiveTasks(ts[1..][..q]);
    }
  }

  /** A prefix one longer than a prefix of the tail adds the head in front. */
  lemma PrefixOfTail<T>(s: seq<T>, q: nat)
    requires q < |s|
    ensures s[..q + 1] == [s[0]] + s[1..][..q]
  {
  }

  /** The bounds CompleteTask accepts: 1..number of active tasks. */
  predicate ValidTaskNumber(ts: seq<CyberTask>, n: int)
  {
    0 < n <= |ActiveTasks(ts)|
  }

  /** The task list after CompleteTask(n): an invalid number changes
      nothing, and a valid one only sets the completion flag of one task
      that was not completed. */
  function CompleteAt(ts: seq<CyberTask>, n: int): (r: seq<CyberTask>)
    ensures |r| == |ts|
    ensures !ValidTaskNumber(ts, n) ==> r == ts
    ensures forall i :: 0 <= i < |ts| ==>
      r[i] == ts[i] || (!ts[i].IsCompleted && r[i] == ts[i].(IsCompleted := true))
  {
    if ValidTaskNumber(ts, n) then
      var p := ActivePosition(ts, n - 1);
      ts[p := ts[p].(IsCompleted := true)]
    else ts
  }

  const InvalidTaskNumber: string :=
    "Invalid task number. Please provide a valid number from the active tasks list."

  /** The message CompleteTask(n) posts. */
  function CompleteMessage(ts: seq<CyberTask>, n: int): string
  {
    if ValidTaskNumber(ts, n) then
      "Task '" + ActiveTasks(ts)[n - 1].Title + "' marked as complete. Well done!"
    else InvalidTaskNumber
  }

  lemma ActiveTasksSingleton(x: CyberTask)
    ensures ActiveTasks([x]) == if x.IsCompleted then [] else [x]
  {
    assert [x][1..] == [];
  }

  /** Any position splits a sequence into the part before, the element and
      the part after. */
  lemma SplitAt<T>(s: seq<T>, p: nat)
    requires p < |s|
    ensures s == s[..p] + [s[p]] + s[p + 1..]
  {
  }

  /** The parts around the middle element of `a + [x] + b` are `a` and `b`. */
  lemma SliceAround<T>(a: seq<T>, x: T, b: seq<T>)
    ensures (a + [x] + b)[..|a|] == a && (a + [x] + b)[|a| + 1..] == b
  {
  }

  /** Updating one position leaves the parts before and after it as they were. */
  lemma UpdateKeepsRest<T>(s: seq<T>, p: nat, v: T)
    requires p < |s|
    ensures s[p := v][..p] == s[..p] && s[p := v][p + 1..] == s[p + 1..]
  {
  }

  /** The active list splits around any one position of the task list. */
  lemma ActiveTasksAround(ts: seq<CyberTask>, p: nat)
    requires p < |ts|
    ensures ActiveTasks(ts)
      == ActiveTasks(ts[..p]) + (if ts[p].IsCompleted then [] else [ts[p]]) + ActiveTasks(ts[p + 1..])
  {
    SplitAt(ts, p);
    ActiveTasksConcat(ts[..p] + [ts[p]], ts[p + 1..]);
    ActiveTasksConcat(ts[..p], [ts[p]]);
    ActiveTasksSingleton(ts[p]);
  }

  /** A valid number marks the n-th active task, in insertion order, as
      completed and changes no other task. */
  lemma CompleteMarksOne(ts: seq<CyberTask>, n: int)
    requires ValidTaskNumber(ts, n)
    ensures var r := CompleteAt(ts, n);
      && |r| == |ts|
      && exists p :: 0 <= p < |ts| && ts[p] == ActiveTasks(ts)[n - 1] && !ts[p].IsCompleted
           && r[p] == ts[p].(IsCompleted := true)
           && forall i :: 0 <= i < |ts| && i != p ==> r[i] == ts[i]
  {
    var p := ActivePosition(ts, n - 1);
    assert CompleteAt(ts, n) == ts[p := ts[p].(IsCompleted := true)];
  }

  /** After completing visible number n the active list loses exactly that
      entry, the entries after it move down by one in the same order, and the
      active count drops by one. */
  lemma CompleteShiftsActive(ts: seq<CyberTask>, n: int)
    requires ValidTaskNumber(ts, n)
    ensures var r := CompleteAt(ts, n);
      && ActiveTasks(r) == ActiveTasks(ts)[..n - 1] + ActiveTasks(ts)[n..]
      && ActiveCount(r) == ActiveCount(ts) - 1
  {
    var p := ActivePosition(ts, n - 1);
    ActivePositionPrefix(ts, n - 1);
    var r := CompleteAt(ts, n);
    assert r == ts[p := ts[p].(IsCompleted := true)];
    var a, b := ActiveTasks(ts[..p]), ActiveTasks(ts[p + 1..]);
    ActiveTasksAround(ts, p);
    CompletedAround(ts, p);
    DropMiddle(ActiveTasks(ts), a, ts[p], b);
    ActiveCountIsLength(ts);
    ActiveCountIsLength(r);
  }

  /** Completing the task at one position drops it from the active list. */
  lemma CompletedAround(ts: seq<CyberTask>, p: nat)
    requires p < |ts|
    ensures ActiveTasks(ts[p := ts[p].(IsCompleted := true)])
      == ActiveTasks(ts[..p]) + ActiveTasks(ts[p + 1..])
  {
    var r := ts[p := ts[p].(IsCompleted := true)];
    UpdateKeepsRest(ts, p, ts[p].(IsCompleted := true));
    ActiveTasksAround(r, p);
    assert ActiveTasks(r) == ActiveTasks(ts[..p]) + [] + ActiveTasks(ts[p + 1..]);
  }

  /** Removing the middle element of `a + [x] + b` by position leaves `a + b`. */
  lemma DropMiddle<T>(all: seq<T>, a: seq<T>, x: T, b: seq<T>)
    requires all == a + [x] + b
    ensures all[..|a|] + all[|a| + 1..] == a + b
  {
    SliceAround(a, x, b);
  }

  /** A number outside 1..active count leaves every task as it was and posts
      the invalid-number message. */
  lemma CompleteInvalid(ts: seq<CyberTask>, n: int)
    requires n <= 0 || n > ActiveCount(ts)
    ensures CompleteAt(ts, n) == ts && CompleteMessage(ts, n) == InvalidTaskNumber
  {
    ActiveCountIsLength(ts);
  }

  /** The new task AddTask appends. */
  function AddedTask(title: string, description: string, reminder: Option<DateTime>): (t: CyberTask)
    ensures !t.IsCompleted && !t.IsNotified
    ensures t.Title == title && t.Description == description && t.ReminderDate == reminder
  {
    CyberTask(title, description, reminder, false, false)
  }

  /** The message AddTask posts. */
  function AddedMessage(title: string, reminder: Option<DateTime>): string
  {
    var reminderInfo := match reminder
      case Some(d) => " with a reminder for " + FormatDate(d)
      case None => "";
    "Task '" + title + "' added successfully" + reminderInfo + "."
  }

  /** Appending a new task raises the active count by exactly one and adds
      it at the end of the active list. */
  lemma AddActive(ts: seq<CyberTask>, title: string, description: string, reminder: Option<DateTime>)
    ensures var t := AddedTask(title, description, reminder);
      && ActiveCount(ts + [t]) == ActiveCount(ts) + 1
      && ActiveTasks(ts + [t]) == ActiveTasks(ts) + [t]
  {
    var t := AddedTask(title, description, reminder);
    ActiveTasksConcat(ts, [t]);
    assert ActiveTasks([t]) == [t] + ActiveTasks([]);
    ActiveCountIsLength(ts);
    ActiveCountIsLength(ts + [t]);
  }

  /** The condition of GetTasksForReminderCheck. */
  predicate AwaitsReminder(t: CyberTask)
  {
    !t.IsCompleted && t.ReminderDate.Some? && !t.IsNotified
  }

  /** GetTasksForReminderCheck(): no due-time filter is applied here. */
  function ReminderCandidates(ts: seq<CyberTask>): (r: seq<CyberTask>)
    ensures |r| <= |ts|
    ensures forall i :: 0 <= i < |r| ==> AwaitsReminder(r[i]) && r[i] in ts
  {
    if ts == [] then []
    else (if AwaitsReminder(ts[0]) then [ts[0]] else []) + ReminderCandidates(ts[1..])
  }

  /** Every task that awaits a reminder is a candidate. */
  lemma {:induction false} ReminderCandidatesMembers(ts: seq<CyberTask>, t: CyberTask)
    ensures t in ReminderCandidates(ts) <==> t in ts && AwaitsReminder(t)
  {
    if ts != [] {
      ReminderCandidatesMembers(ts[1..], t);
      assert t in ts <==> t == ts[0] || t in ts[1..];
    }
  }

  /** The candidates keep insertion order. */
  lemma {:induction false} ReminderCandidatesConcat(a: seq<CyberTask>, b: seq<CyberTask>)
    ensures ReminderCandidates(a + b) == ReminderCandidates(a) + ReminderCandidates(b)
  {
    if a == [] {
      assert a + b == b;
    } else {
      assert (a + b)[1..] == a[1..] + b;
      ReminderCandidatesConcat(a[1..], b);
    }
  }

  /** A task awaiting a reminder is active, so the candidates are among the
      tasks that CompleteTask numbers. */
  lemma {:induction false} CandidatesAreActive(ts: seq<CyberTask>)
    ensures |ReminderCandidates(ts)| <= |ActiveTasks(ts)|
  {
    if ts != [] {
      CandidatesAreActive(ts[1..]);
    }
  }

  const ActiveHeader: string := "Your current active tasks:\n"
  const NoActiveTasks: string := "You have no active tasks currently. Great job!"

  /** One listing line for the task at 0-based position i: its 1-based number and its text. */
  function TaskLine(i: nat, t: CyberTask): string
  {
    "- " + IntToString(i + 1) + ". " + TaskToString(t) + NewLine
  }

  /** The numbered lines of the active list, one per active task. */
  function TaskLines(active: seq<CyberTask>): (r: seq<string>)
    ensures |r| == |active|
  {
    seq(|active|, i requires 0 <= i < |active| => TaskLine(i, active[i]))
  }

  /** The message ShowAllTasks posts: the no-active-tasks message, or the
      header followed by one line per active task. */
  function Listing(ts: seq<CyberTask>): (r: string)
    ensures ActiveTasks(ts) == [] ==> r == NoActiveTasks
    ensures ActiveTasks(ts) != [] ==> StartsWith(r, ActiveHeader)
  {
    var active := ActiveTasks(ts);
    if |active| == 0 then NoActiveTasks
    else ActiveHeader + Concat(TaskLines(active))
  }

  /** The active task at position i is listed as number i+1 with its ToString
      text, after the lines of the tasks before it and before those after it. */
  lemma TaskLineInPlace(ts: seq<CyberTask>, i: nat)
    requires i < |ActiveTasks(ts)|
    ensures var lines := TaskLines(ActiveTasks(ts));
      Listing(ts) == ActiveHeader
        + (Concat(lines[..i]) + TaskLine(i, ActiveTasks(ts)[i]) + Concat(lines[i + 1..]))
  {
    var lines := TaskLines(ActiveTasks(ts));
    ConcatAt(lines, i);
  }

  /** With no active task the listing is the no-active-tasks message; with
      some it opens with the header. */
  lemma ListingShape(ts: seq<CyberTask>)
    ensures ActiveCount(ts) == 0 ==> Listing(ts) == NoActiveTasks
    ensures ActiveCount(ts) > 0 ==> StartsWith(Listing(ts), ActiveHeader)
  {
    ActiveCountIsLength(ts);
    if |ActiveTasks(ts)| > 0 {
      var r := Listing(ts);
      assert r[..|ActiveHeader|] == ActiveHeader;
    }
  }

  /** The task store.  Messages that C# sends through the callback are the
      methods' results here; the engine posts them to the history. */
  class TaskManager {
    var tasks: seq<CyberTask>

    constructor()
      ensures tasks == []
    {
      tasks := [];
    }

    /** GetActiveTaskCount(). */
    function GetActiveTaskCount(): (count: nat)
      reads this
      ensures count == |ActiveTasks(tasks)| <= |tasks|
    {
      ActiveCountIsLength(tasks);
      ActiveCount(tasks)
    }

    /** AddTask(title, description, reminderDate). */
    method AddTask(title: string, description: string, reminder: Option<DateTime>) returns (msg: string)
      modifies this
      ensures tasks == old(tasks) + [AddedTask(title, description, reminder)]
      ensures msg == AddedMessage(title, reminder)
    {
      var newTask := CyberTask(title, description, reminder, false, false);
      tasks := tasks + [newTask];
      var reminderInfo := "";
      if reminder.Some? {
        reminderInfo := " with a reminder for " + FormatDate(reminder.value);
      }
      msg := "Task '" + title + "' added successfully" + reminderInfo + ".";
    }

    /** CompleteTask(taskNumber). */
    method CompleteTask(taskNumber: int) returns (msg: string)
      modifies this
      ensures tasks == CompleteAt(old(tasks), taskNumber)
      ensures msg == CompleteMessage(old(tasks), taskNumber)
    {
      var activeTasks := ActiveTasks(tasks);
      if taskNumber > 0 && taskNumber <= |activeTasks| {
        var p := ActivePosition(tasks, taskNumber - 1);
        var taskToComplete := tasks[p];
        tasks := tasks[p := taskToComplete.(IsCompleted := true)];
        msg := "Task '" + taskToComplete.Title + "' marked as complete. Well done!";
      } else {
        msg := InvalidTaskNumber;
      }
    }

    /** ShowAllTasks(): reads the tasks and changes nothing. */
    method ShowAllTasks() returns (msg: string)
      ensures msg == Listing(tasks)
    {
      var activeTasks := ActiveTasks(tasks);
      if |activeTasks| > 0 {
        var sb := ActiveHeader;
        ghost var lines := TaskLines(activeTasks);
        for i := 0 to |activeTasks|
          invariant sb == ActiveHeader + Concat(lines[..i])
        {
          var line := "- " + IntToString(i + 1) + ". " + TaskToString(activeTasks[i]) + NewLine;
          assert line == lines[i];
          AppendAssoc(ActiveHeader, Concat(lines[..i]), line);
          sb := sb + line;
          ConcatPrefix(lines, i);
        }
        assert lines[..|activeTasks|] == lines;
        msg := sb;
      } else {
        msg := NoActiveTasks;
      }
    }
  }
}
